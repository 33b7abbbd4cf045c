/**
 The per-organization queue of referenced writes: a chain of promises whose head waits for the
 admission lock. A ticket is one call of `lockTurn`; its turn resolves once the ticket is released
 and the turn before it has resolved.
 */
module LockTurns {
  import opened Wrappers

  datatype Phase = Waiting | Holding | Expired

  /** `settled`: the callback that clears the map entry of this turn has run. */
  datatype Ticket = Ticket(org: string, previous: Option<nat>, phase: Phase, released: bool, settled: bool)

  datatype Queue = Queue(tickets: seq<Ticket>, turns: map<string, nat>)

  predicate TurnResolved(tickets: seq<Ticket>, i: nat)
    decreases i
  {
    && i < |tickets|
    && tickets[i].released
    && (tickets[i].previous.Some? ==>
          tickets[i].previous.value < i && TurnResolved(tickets, tickets[i].previous.value))
  }

  datatype Event = Enter(org: string) | Grant(i: nat) | Expire(i: nat) | Release(i: nat) | Settle(i: nat)

  /** Whether the JavaScript event loop can run this section now. */
  predicate Enabled(q: Queue, e: Event) {
    match e
    case Enter(_) => true
    case Grant(i) =>
      && i < |q.tickets| && q.tickets[i].phase == Waiting
      && (q.tickets[i].previous.Some? ==> TurnResolved(q.tickets, q.tickets[i].previous.value))
    case Expire(i) => i < |q.tickets| && q.tickets[i].phase == Waiting
    case Release(i) => i < |q.tickets| && q.tickets[i].phase == Holding
    case Settle(i) => TurnResolved(q.tickets, i)
  }

  function Step(q: Queue, e: Event): Queue
    requires Enabled(q, e)
  {
    match e
    case Enter(org) =>
      var previous := if org in q.turns then Some(q.turns[org]) else None;
      Queue(q.tickets + [Ticket(org, previous, Waiting, false, false)], q.turns[org := |q.tickets|])
    case Grant(i) => q.(tickets := q.tickets[i := q.tickets[i].(phase := Holding)])
    case Expire(i) => q.(tickets := q.tickets[i := q.tickets[i].(phase := Expired, released := true)])
    case Release(i) => q.(tickets := q.tickets[i := q.tickets[i].(released := true)])
    case Settle(i) =>
      var org := q.tickets[i].org;
      Queue(q.tickets[i := q.tickets[i].(settled := true)],
            if org in q.turns && q.turns[org] == i then q.turns - {org} else q.turns)
  }

  function Run(es: seq<Event>): Queue {
    if es == [] then Queue([], map[])
    else
      var q := Run(es[..|es| - 1]);
      if Enabled(q, es[|es| - 1]) then Step(q, es[|es| - 1]) else q
  }

  /** Every earlier ticket of the same organization has been released. */
  ghost predicate AllReleasedBefore(tickets: seq<Ticket>, org: string, n: nat)
    requires n <= |tickets|
  {
    forall j :: 0 <= j < n && tickets[j].org == org ==> tickets[j].released
  }

  /** A ticket follows the last one of its organization, or the chain was idle when it came. */
  ghost predicate Linked(tickets: seq<Ticket>, i: nat)
    requires i < |tickets|
  {
    match tickets[i].previous
    case None => AllReleasedBefore(tickets, tickets[i].org, i)
    case Some(p) => p < i && tickets[p].org == tickets[i].org && IsLast(tickets, tickets[p].org, p, i)
  }

  ghost predicate IsLast(tickets: seq<Ticket>, org: string, p: nat, n: nat)
    requires p < n <= |tickets|
  {
    forall j :: p < j < n ==> tickets[j].org != org
  }

  ghost predicate TicketInv(tickets: seq<Ticket>, i: nat)
    requires i < |tickets|
  {
    && Linked(tickets, i)
    && (tickets[i].phase == Waiting ==> !tickets[i].released)
    && (tickets[i].phase == Holding ==> AllReleasedBefore(tickets, tickets[i].org, i))
    && (tickets[i].settled ==> TurnResolved(tickets, i))
  }

  ghost predicate TurnsInv(q: Queue, org: string) {
    if org in q.turns then
      && q.turns[org] < |q.tickets| && q.tickets[q.turns[org]].org == org
      && IsLast(q.tickets, org, q.turns[org], |q.tickets|)
      && !q.tickets[q.turns[org]].settled
    else AllReleasedBefore(q.tickets, org, |q.tickets|)
  }

  ghost predicate Inv(q: Queue) {
    && (forall i :: 0 <= i < |q.tickets| ==> TicketInv(q.tickets, i))
    && (forall org :: TurnsInv(q, org))
  }

  /** A turn has resolved exactly when its ticket and all earlier ones of the organization are released. */
  lemma {:induction false} ResolvedIffReleased(tickets: seq<Ticket>, i: nat)
    requires i < |tickets| && forall j | 0 <= j <= i :: Linked(tickets, j)
    ensures TurnResolved(tickets, i) <==> tickets[i].released && AllReleasedBefore(tickets, tickets[i].org, i)
  {
    assert Linked(tickets, i);
    if tickets[i].previous.Some? {
      var p := tickets[i].previous.value;
      ResolvedIffReleased(tickets, p);
      assert AllReleasedBefore(tickets, tickets[i].org, i) <==>
             tickets[p].released && AllReleasedBefore(tickets, tickets[i].org, p);
    }
  }

  /**
   Neither a lost wake-up nor an overtaking: a waiter can be granted exactly when all its predecessors are released.
   */
  lemma GrantIffPredecessorsReleased(q: Queue, i: nat)
    requires Inv(q) && i < |q.tickets| && q.tickets[i].phase == Waiting
    ensures Enabled(q, Grant(i)) <==> AllReleasedBefore(q.tickets, q.tickets[i].org, i)
  {
    assert TicketInv(q.tickets, i);
    forall j | 0 <= j <= i ensures Linked(q.tickets, j) {
      assert TicketInv(q.tickets, j);
    }
    if q.tickets[i].previous.Some? {
      var p := q.tickets[i].previous.value;
      ResolvedIffReleased(q.tickets, p);
      assert AllReleasedBefore(q.tickets, q.tickets[i].org, i) <==>
             q.tickets[p].released && AllReleasedBefore(q.tickets, q.tickets[i].org, p);
    }
  }

  /** Marking a ticket keeps what is already resolved. */
  lemma {:induction false} ResolvedStays(tickets: seq<Ticket>, k: nat, t: Ticket, i: nat)
    requires k < |tickets| && t.previous == tickets[k].previous && (tickets[k].released ==> t.released)
    requires TurnResolved(tickets, i)
    ensures TurnResolved(tickets[k := t], i)
  {
    if tickets[i].previous.Some? {
      ResolvedStays(tickets, k, t, tickets[i].previous.value);
    }
  }

  lemma {:induction false} ResolvedGrows(tickets: seq<Ticket>, t: Ticket, i: nat)
    requires TurnResolved(tickets, i)
    ensures TurnResolved(tickets + [t], i)
  {
    if tickets[i].previous.Some? {
      ResolvedGrows(tickets, t, tickets[i].previous.value);
    }
  }

  lemma EnterKeepsInv(q: Queue, org: string)
    requires Inv(q)
    ensures Inv(Step(q, Enter(org)))
  {
    var q' := Step(q, Enter(org));
    var n := |q.tickets|;
    assert TurnsInv(q, org);
    forall i | 0 <= i < |q'.tickets| ensures TicketInv(q'.tickets, i) {
      if i < n {
        assert TicketInv(q.tickets, i);
        if q.tickets[i].settled {
          ResolvedGrows(q.tickets, q'.tickets[n], i);
        }
      }
    }
    forall o ensures TurnsInv(q', o) {
      assert TurnsInv(q, o);
    }
  }

  /** A mark on one ticket that keeps its place in the chain keeps the invariant of every ticket. */
  lemma MarkKeepsTickets(q: Queue, k: nat, t: Ticket, after: seq<Ticket>)
    requires Inv(q) && k < |q.tickets| && after == q.tickets[k := t]
    requires t.org == q.tickets[k].org && t.previous == q.tickets[k].previous && (q.tickets[k].released ==> t.released)
    requires t.phase == Waiting ==> !t.released
    requires t.phase == Holding ==> AllReleasedBefore(q.tickets, t.org, k)
    requires t.settled ==> TurnResolved(q.tickets, k)
    ensures forall i :: 0 <= i < |after| ==> TicketInv(after, i)
  {
    forall i | 0 <= i < |after| ensures TicketInv(after, i) {
      assert TicketInv(q.tickets, i);
      if after[i].settled {
        ResolvedStays(q.tickets, k, t, i);
      }
    }
  }

  lemma StepKeepsInv(q: Queue, e: Event)
    requires Inv(q) && Enabled(q, e)
    ensures Inv(Step(q, e))
  {
    if e.Enter? {
      EnterKeepsInv(q, e.org);
    } else {
      var q' := Step(q, e);
      assert TicketInv(q.tickets, e.i);
      if e.Grant? {
        GrantIffPredecessorsReleased(q, e.i);
      }
      if e.Settle? {
        forall j | 0 <= j <= e.i ensures Linked(q.tickets, j) {
          assert TicketInv(q.tickets, j);
        }
        ResolvedIffReleased(q.tickets, e.i);
      }
      MarkKeepsTickets(q, e.i, q'.tickets[e.i], q'.tickets);
      forall org ensures TurnsInv(q', org) {
        assert TurnsInv(q, org);
      }
    }
  }

  lemma {:induction false} RunKeepsInv(es: seq<Event>)
    ensures Inv(Run(es))
  {
    if es != [] {
      var q := Run(es[..|es| - 1]);
      RunKeepsInv(es[..|es| - 1]);
      if Enabled(q, es[|es| - 1]) {
        StepKeepsInv(q, es[|es| - 1]);
      }
    }
  }

  /**
   Safety of the queue in every run. Turns are granted in arrival order, so at most one unreleased ticket of an
   organization holds a turn, however many waiters expired in between; the map entry is absent only when all its
   tickets are released, and is absent once all of them are and their callbacks have run.
   */
  lemma QueueIsSafe(es: seq<Event>)
    ensures
      var q := Run(es);
      && (forall i, j ::
            0 <= i < j < |q.tickets| && q.tickets[i].org == q.tickets[j].org && q.tickets[j].phase == Holding ==>
            q.tickets[i].phase != Waiting && q.tickets[i].released)
      && (forall org :: org !in q.turns ==> AllReleasedBefore(q.tickets, org, |q.tickets|))
      && (forall org ::
            (forall i :: 0 <= i < |q.tickets| && q.tickets[i].org == org ==> q.tickets[i].settled) ==> org !in q.turns)
  {
    RunKeepsInv(es);
    var q := Run(es);
    forall i, j | 0 <= i < j < |q.tickets| && q.tickets[i].org == q.tickets[j].org && q.tickets[j].phase == Holding
      ensures q.tickets[i].phase != Waiting && q.tickets[i].released
    {
      assert TicketInv(q.tickets, i) && TicketInv(q.tickets, j);
    }
    forall org ensures org !in q.turns ==> AllReleasedBefore(q.tickets, org, |q.tickets|) {
      assert TurnsInv(q, org);
    }
    forall org | forall i :: 0 <= i < |q.tickets| && q.tickets[i].org == org ==> q.tickets[i].settled
      ensures org !in q.turns
    {
      assert TurnsInv(q, org);
    }
  }

  /** Nothing is stuck: once all tickets of an organization are released, each of its callbacks can run. */
  lemma ReleasedTurnsSettle(es: seq<Event>, org: string, i: nat)
    requires i < |Run(es).tickets| && Run(es).tickets[i].org == org
    requires AllReleasedBefore(Run(es).tickets, org, |Run(es).tickets|)
    ensures Enabled(Run(es), Settle(i))
    ensures var q, q' := Run(es), Step(Run(es), Settle(i));
            && |q'.tickets| == |q.tickets|
            && q'.tickets[i] == Ticket(org, q.tickets[i].previous, q.tickets[i].phase, true, true)
            && (forall j | 0 <= j < |q.tickets| && j != i :: q'.tickets[j] == q.tickets[j])
            && (org in q'.turns <==> org in q.turns && q.turns[org] != i) && q'.turns - {org} == q.turns - {org}
  {
    RunKeepsInv(es);
    var q := Run(es);
    forall j | 0 <= j <= i ensures Linked(q.tickets, j) {
      assert TicketInv(q.tickets, j);
    }
    ResolvedIffReleased(q.tickets, i);
  }

  /** The module state of the source: the promises created so far and the map `lockTurns`. */
  class Turns {
    var tickets: seq<Ticket>
    var lockTurns: map<string, nat>

    function Value(): Queue
      reads this
    {
      Queue(tickets, lockTurns)
    }

    ghost predicate Valid()
      reads this
    {
      Inv(Value())
    }

    constructor ()
      ensures Valid() && Value() == Run([])
    {
      tickets, lockTurns := [], map[];
    }

    /** The synchronous head of `lockTurn`: join the chain and become its tail. */
    method Enter(org: string) returns (ticket: nat)
      requires Valid()
      modifies this
      ensures Valid() && Value() == Step(old(Value()), Event.Enter(org))
      ensures ticket < |tickets| && tickets[ticket].phase == Waiting
    {
      EnterKeepsInv(Value(), org);
      ticket := |tickets|;
      var previous := if org in lockTurns then Some(lockTurns[org]) else None;
      tickets := tickets + [Ticket(org, previous, Waiting, false, false)];
      lockTurns := lockTurns[org := ticket];
    }

    /** The race of the previous turn against the deadline; a late waiter releases its own ticket. */
    method Race(ticket: nat, late: bool) returns (granted: bool)
      requires Valid() && Enabled(Value(), if late then Expire(ticket) else Grant(ticket))
      modifies this
      ensures Valid() && Value() == Step(old(Value()), if late then Expire(ticket) else Grant(ticket))
      ensures granted == !late
      ensures granted ==> AllReleasedBefore(tickets, tickets[ticket].org, ticket)
    {
      StepKeepsInv(Value(), if late then Expire(ticket) else Grant(ticket));
      if !late {
        tickets := tickets[ticket := tickets[ticket].(phase := Holding)];
        assert TicketInv(tickets, ticket);
        return true;
      }
      tickets := tickets[ticket := tickets[ticket].(phase := Expired, released := true)];
      granted := false;
    }

    /** The returned release function; calling it again changes nothing. */
    method ReleaseTurn(ticket: nat)
      requires Valid() && Enabled(Value(), Release(ticket))
      modifies this
      ensures Valid() && Value() == Step(old(Value()), Release(ticket)) && Enabled(Value(), Release(ticket))
      ensures old(tickets[ticket].released) ==> Value() == old(Value())
    {
      StepKeepsInv(Value(), Release(ticket));
      tickets := tickets[ticket := tickets[ticket].(released := true)];
    }

    /** The callback on the resolved turn. */
    method Cleanup(ticket: nat)
      requires Valid() && Enabled(Value(), Settle(ticket))
      modifies this
      ensures Valid() && Value() == Step(old(Value()), Settle(ticket))
    {
      StepKeepsInv(Value(), Settle(ticket));
      var org := tickets[ticket].org;
      tickets := tickets[ticket := tickets[ticket].(settled := true)];
      if org in lockTurns && lockTurns[org] == ticket {
        lockTurns := lockTurns - {org};
      }
    }
  }
}
