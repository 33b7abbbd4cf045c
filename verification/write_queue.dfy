/**
 The referenced writes of one process: the queue of turns together with what each write does once it is granted one --
 check out a pooled connection, wait on it for the admission lock, run its transaction.
 */
module WriteQueue {
  import opened Wrappers
  import T = LockTurns

  datatype Stage = Queueing | Connecting | Locking | Granted | Over

  /** One stage per ticket. */
  datatype State = State(queue: T.Queue, stages: seq<Stage>)

  datatype Event =
    | Enter(org: string)
    | Grant(i: nat)
    | Expire(i: nat)
    | Connect(i: nat)
    | GetLock(i: nat)
    | End(i: nat)
    | Settle(i: nat)

  /** End is any exit of a write that was granted its turn: no connection, a failed statement, COMMIT. */
  predicate Enabled(s: State, e: Event) {
    match e
    case Enter(_) => true
    case Grant(i) => i < |s.stages| && s.stages[i] == Queueing && T.Enabled(s.queue, T.Grant(i))
    case Expire(i) => i < |s.stages| && s.stages[i] == Queueing && T.Enabled(s.queue, T.Expire(i))
    case Connect(i) => i < |s.stages| && s.stages[i] == Connecting
    case GetLock(i) => i < |s.stages| && s.stages[i] == Locking && T.Enabled(s.queue, T.Release(i))
    case End(i) => i < |s.stages| && s.stages[i] in {Connecting, Locking, Granted} && T.Enabled(s.queue, T.Release(i))
    case Settle(i) => i < |s.stages| && T.Enabled(s.queue, T.Settle(i))
  }

  /** The turn is released once the lock is granted, and again on every exit. */
  function Step(s: State, e: Event): State
    requires Enabled(s, e)
  {
    match e
    case Enter(org) => State(T.Step(s.queue, T.Enter(org)), s.stages + [Queueing])
    case Grant(i) => State(T.Step(s.queue, T.Grant(i)), s.stages[i := Connecting])
    case Expire(i) => State(T.Step(s.queue, T.Expire(i)), s.stages[i := Over])
    case Connect(i) => s.(stages := s.stages[i := Locking])
    case GetLock(i) => State(T.Step(s.queue, T.Release(i)), s.stages[i := Granted])
    case End(i) => State(T.Step(s.queue, T.Release(i)), s.stages[i := Over])
    case Settle(i) => s.(queue := T.Step(s.queue, T.Settle(i)))
  }

  function Run(es: seq<Event>): State {
    if es == [] then State(T.Queue([], map[]), [])
    else
      var s := Run(es[..|es| - 1]);
      if Enabled(s, es[|es| - 1]) then Step(s, es[|es| - 1]) else s
  }

  /** How far a write is agrees with its ticket. */
  ghost predicate StageInv(t: T.Ticket, stage: Stage) {
    match stage
    case Queueing => t.phase == T.Waiting && !t.released
    case Connecting => t.phase == T.Holding && !t.released
    case Locking => t.phase == T.Holding && !t.released
    case Granted => t.phase == T.Holding && t.released
    case Over => t.phase != T.Waiting && t.released
  }

  ghost predicate Inv(s: State) {
    && T.Inv(s.queue) && |s.stages| == |s.queue.tickets|
    && forall i :: 0 <= i < |s.stages| ==> StageInv(s.queue.tickets[i], s.stages[i])
  }

  lemma StepKeepsStages(s: State, e: Event)
    requires Inv(s) && Enabled(s, e)
    ensures var s' := Step(s, e);
            && |s'.stages| == |s'.queue.tickets|
            && forall i :: 0 <= i < |s'.stages| ==> StageInv(s'.queue.tickets[i], s'.stages[i])
  {
    forall i | 0 <= i < |Step(s, e).stages|
      ensures i < |Step(s, e).queue.tickets| && StageInv(Step(s, e).queue.tickets[i], Step(s, e).stages[i])
    {
      if i < |s.stages| {
        assert StageInv(s.queue.tickets[i], s.stages[i]);
      }
    }
  }

  lemma StepKeepsInv(s: State, e: Event)
    requires Inv(s) && Enabled(s, e)
    ensures Inv(Step(s, e))
  {
    StepKeepsStages(s, e);
    match e
    case Enter(org) => T.StepKeepsInv(s.queue, T.Enter(org));
    case Grant(i) => T.StepKeepsInv(s.queue, T.Grant(i));
    case Expire(i) => T.StepKeepsInv(s.queue, T.Expire(i));
    case Connect(_) =>
    case GetLock(i) => T.StepKeepsInv(s.queue, T.Release(i));
    case End(i) => T.StepKeepsInv(s.queue, T.Release(i));
    case Settle(i) => T.StepKeepsInv(s.queue, T.Settle(i));
  }

  lemma {:induction false} RunKeepsInv(es: seq<Event>)
    ensures Inv(Run(es))
  {
    if es != [] {
      RunKeepsInv(es[..|es| - 1]);
      if Enabled(Run(es[..|es| - 1]), es[|es| - 1]) {
        StepKeepsInv(Run(es[..|es| - 1]), es[|es| - 1]);
      }
    }
  }

  /** The write is about to check out a connection, or waits on one for the admission lock. */
  predicate Competes(s: State, i: nat) {
    i < |s.stages| && (s.stages[i] == Connecting || s.stages[i] == Locking)
  }

  predicate OfOrg(s: State, i: nat, org: string) {
    i < |s.queue.tickets| && s.queue.tickets[i].org == org
  }

  /** The writes of an organization that keep a pooled connection waiting for the admission lock. */
  function Waiters(s: State, org: string): set<nat> {
    set i | 0 <= i < |s.stages| && OfOrg(s, i, org) && s.stages[i] == Locking
  }

  /**
   The purpose of the queue, in every run: per organization at most one write keeps a pooled connection waiting for the
   admission lock. It is the head of the queue: every earlier write has its lock or is over, every later one holds no
   connection and no turn, and has not even begun to ask the pool.
   */
  lemma OneWriteWaitsForTheLock(es: seq<Event>, org: string)
    ensures |Waiters(Run(es), org)| <= 1
    ensures forall i: nat, j: nat :: Competes(Run(es), i) && OfOrg(Run(es), i, org) && OfOrg(Run(es), j, org) ==>
              && (j < i ==> j < |Run(es).stages| && Run(es).stages[j] in {Granted, Over})
              && (i < j < |Run(es).stages| ==> Run(es).stages[j] in {Queueing, Over})
  {
    var s := Run(es);
    RunKeepsInv(es);
    forall i: nat, j: nat | Competes(s, i) && OfOrg(s, i, org) && OfOrg(s, j, org)
      ensures j < i ==> j < |s.stages| && s.stages[j] in {Granted, Over}
      ensures i < j < |s.stages| ==> s.stages[j] in {Queueing, Over}
    {
      OnlyTheHeadCompetes(s, i, j);
    }
    assert forall i, j | i in Waiters(s, org) && j in Waiters(s, org) :: i == j by {
      forall i, j | i in Waiters(s, org) && j in Waiters(s, org)
        ensures i == j
      {
        assert Competes(s, i) && Competes(s, j);
      }
    }
    AtMostOne(Waiters(s, org));
  }

  lemma OnlyTheHeadCompetes(s: State, i: nat, j: nat)
    requires Inv(s) && Competes(s, i) && j < |s.stages| && s.queue.tickets[j].org == s.queue.tickets[i].org
    ensures j < i ==> s.stages[j] in {Granted, Over}
    ensures i < j ==> s.stages[j] in {Queueing, Over}
  {
    assert T.TicketInv(s.queue.tickets, i) && T.TicketInv(s.queue.tickets, j);
    assert StageInv(s.queue.tickets[i], s.stages[i]) && StageInv(s.queue.tickets[j], s.stages[j]);
  }

  lemma AtMostOne(a: set<nat>)
    requires forall i, j | i in a && j in a :: i == j
    ensures |a| <= 1
  {
    if i :| i in a {
      assert a == {i};
    }
  }

  /** And the queue never stalls: the first write of an organization that is not released is granted, or can be. */
  lemma TheHeadCanMove(es: seq<Event>, i: nat)
    requires i < |Run(es).queue.tickets| && !Run(es).queue.tickets[i].released
    requires T.AllReleasedBefore(Run(es).queue.tickets, Run(es).queue.tickets[i].org, i)
    ensures Competes(Run(es), i) || Enabled(Run(es), Grant(i))
  {
    var s := Run(es);
    RunKeepsInv(es);
    assert StageInv(s.queue.tickets[i], s.stages[i]);
    if s.stages[i] == Queueing {
      T.GrantIffPredecessorsReleased(s.queue, i);
    }
  }

  lemma RunOn(es: seq<Event>, e: Event)
    requires Enabled(Run(es), e)
    ensures Run(es + [e]) == Step(Run(es), e)
  {
    assert (es + [e])[..|es|] == es;
  }

  /** Only the stage and the ticket of write `i` differ. */
  ghost predicate OnlyMoves(s: State, s': State, i: nat) {
    && |s'.stages| == |s.stages| && |s'.queue.tickets| == |s.queue.tickets|
    && forall j | 0 <= j < |s.stages| && j < |s.queue.tickets| && j != i ::
         s'.stages[j] == s.stages[j] && s'.queue.tickets[j] == s.queue.tickets[j]
  }

  /** The head can go on to its lock: at most three events of its own, none of another write, and it has the lock. */
  lemma TheHeadGetsItsLock(es: seq<Event>, i: nat) returns (more: seq<Event>)
    requires i < |Run(es).queue.tickets| && !Run(es).queue.tickets[i].released
    requires T.AllReleasedBefore(Run(es).queue.tickets, Run(es).queue.tickets[i].org, i)
    ensures |more| <= 3 && forall e | e in more :: e in {Grant(i), Connect(i), GetLock(i)}
    ensures OnlyMoves(Run(es), Run(es + more), i)
    ensures i < |Run(es + more).stages| && Run(es + more).stages[i] == Granted
    ensures i < |Run(es + more).queue.tickets| && Run(es + more).queue.tickets[i].released
  {
    RunKeepsInv(es);
    TheHeadCanMove(es, i);
    var s := Run(es);
    assert StageInv(s.queue.tickets[i], s.stages[i]);
    if s.stages[i] == Queueing {
      RunOn(es, Grant(i));
      var rest := AfterGrant(es + [Grant(i)], i);
      more := [Grant(i)] + rest;
      assert es + more == es + [Grant(i)] + rest;
    } else {
      more := AfterGrant(es, i);
    }
  }

  lemma AfterGrant(es: seq<Event>, i: nat) returns (more: seq<Event>)
    requires Competes(Run(es), i)
    ensures |more| <= 2 && forall e | e in more :: e in {Connect(i), GetLock(i)}
    ensures OnlyMoves(Run(es), Run(es + more), i)
    ensures i < |Run(es + more).stages| && Run(es + more).stages[i] == Granted
    ensures i < |Run(es + more).queue.tickets| && Run(es + more).queue.tickets[i].released
  {
    RunKeepsInv(es);
    var s := Run(es);
    assert StageInv(s.queue.tickets[i], s.stages[i]);
    if s.stages[i] == Connecting {
      RunOn(es, Connect(i));
      RunOn(es + [Connect(i)], GetLock(i));
      more := [Connect(i), GetLock(i)];
      assert es + more == es + [Connect(i)] + [GetLock(i)];
    } else {
      RunOn(es, GetLock(i));
      more := [GetLock(i)];
    }
  }

  ghost predicate Progress(es: seq<Event>) {
    forall e | e in es :: e.Grant? || e.Connect? || e.GetLock?
  }

  /** The first `n` tickets are released. */
  ghost predicate Served(s: State, n: nat) {
    n <= |s.queue.tickets| && forall j | 0 <= j < n :: s.queue.tickets[j].released
  }

  /**
   So the queue can always be worked off in order of arrival, without a single wait expiring: whatever happened, some
   continuation of grants, connections and locks releases every turn.
   */
  lemma TheQueueDrains(es: seq<Event>) returns (more: seq<Event>)
    ensures Progress(more) && |Run(es + more).queue.tickets| == |Run(es).queue.tickets|
    ensures forall t | t in Run(es + more).queue.tickets :: t.released
  {
    more := Drain(es, 0, |Run(es).queue.tickets|);
  }

  lemma {:induction false} Drain(es: seq<Event>, k: nat, n: nat) returns (more: seq<Event>)
    requires Served(Run(es), k) && n == |Run(es).queue.tickets|
    ensures Progress(more) && |Run(es + more).queue.tickets| == n && Served(Run(es + more), n)
    decreases n - k
  {
    if k == n {
      more := [];
      assert es + [] == es;
    } else {
      var first := ServeNext(es, k, n);
      var rest := Drain(es + first, k + 1, n);
      more := first + rest;
      assert es + more == es + first + rest;
    }
  }

  lemma ServeNext(es: seq<Event>, k: nat, n: nat) returns (more: seq<Event>)
    requires Served(Run(es), k) && k < n == |Run(es).queue.tickets|
    ensures Progress(more) && |Run(es + more).queue.tickets| == n && Served(Run(es + more), k + 1)
  {
    if Run(es).queue.tickets[k].released {
      more := [];
      assert es + [] == es;
    } else {
      RunKeepsInv(es);
      more := TheHeadGetsItsLock(es, k);
    }
  }
}
