/**
 Admission of reads and referenced writes against the journal: the list read with its
 optimistic fence and its locked fallback, and the write that refers to CIs. Every
 statement is one event, so an event sequence is one interleaving of all callers, the
 journal and the database.
 */
module ReadFence {
  import opened Wrappers
  import J = Journal

  type Id = J.Id

  const MAX_PENDING_CI_IDS: nat := 1000
  const FALLBACKS_PER_ORG: nat := 2

  function Elements(list: seq<Id>): set<Id> {
    set x | x in list
  }

  /** Two lists of ids name the same CIs, as the fence compares them. */
  predicate SamePending(first: seq<Id>, second: seq<Id>) {
    if |first| != |second| then false
    else if |first| == 0 then true
    else
      var left := Elements(first);
      |left| == |Elements(second)| && forall id | id in second :: id in left
  }

  predicate NoDuplicates(list: seq<Id>) {
    forall i, j | 0 <= i < j < |list| :: list[i] != list[j]
  }

  lemma {:induction false} SizeOfElements(list: seq<Id>)
    ensures |Elements(list)| <= |list|
    ensures NoDuplicates(list) ==> |Elements(list)| == |list|
  {
    if list != [] {
      var rest := list[1..];
      SizeOfElements(rest);
      assert list == [list[0]] + rest;
      assert Elements(list) == {list[0]} + Elements(rest);
      if NoDuplicates(list) {
        assert forall i | 0 <= i < |rest| :: rest[i] == list[i + 1];
        assert list[0] !in Elements(rest);
      }
    }
  }

  /** `samePending` decides equality of the two sets, for all lists of the length the query returns them with. */
  lemma SamePendingDecidesEquality(first: seq<Id>, second: seq<Id>)
    ensures SamePending(first, second) <==> |first| == |second| && Elements(first) == Elements(second)
    ensures NoDuplicates(first) && NoDuplicates(second) ==>
              (SamePending(first, second) <==> Elements(first) == Elements(second))
  {
    SizeOfElements(first);
    SizeOfElements(second);
    if SamePending(first, second) && first != [] {
      assert Elements(second) <= Elements(first);
      J.SizeOfSubset(Elements(second), Elements(first));
    }
    if |first| == |second| && Elements(first) == Elements(second) {
      assert forall id | id in second :: id in Elements(second);
    }
  }

  /** What `SELECT ci_id … LIMIT n` may return over the rows of `gap`: any `n` of them, in any order. */
  predicate IsLimited(list: seq<Id>, gap: set<Id>, limit: nat) {
    && NoDuplicates(list)
    && (forall id | id in list :: id in gap)
    && |list| == if |gap| <= limit then |gap| else limit
  }

  /** That is: only ids of the gap, none twice, never more than the limit, and all of them when there are fewer. */
  lemma LimitIff(list: seq<Id>, gap: set<Id>, limit: nat)
    ensures IsLimited(list, gap, limit) <==>
              && NoDuplicates(list) && Elements(list) <= gap && |list| <= limit
              && (|list| < limit ==> Elements(list) == gap)
  {
    SizeOfElements(list);
    if Elements(list) <= gap {
      J.SizeOfSubset(Elements(list), gap);
    }
  }

  /** A list within the accepted size was not cut by the query's limit. */
  lemma AcceptedListIsComplete(list: seq<Id>, gap: set<Id>)
    requires IsLimited(list, gap, MAX_PENDING_CI_IDS + 1)
    ensures |list| <= MAX_PENDING_CI_IDS <==> |gap| <= MAX_PENDING_CI_IDS
    ensures |list| <= MAX_PENDING_CI_IDS ==> Elements(list) == gap
  {
    SizeOfElements(list);
    J.SizeOfSubset(Elements(list), gap);
  }

  /**
   One evaluation of the caller's `read`: the ids it hides and the graphs its queries saw.
   `base` is a history variable: the graph the snapshot would have seen at its own moment.
   */
  datatype Read = Read(pending: seq<Id>, base: J.Graph, seen: seq<J.Graph>)

  datatype Client =
    // readCIList
    | Starting(org: string)
    | Optimistic(org: string, epoch: nat, read: Read)
    | Connecting(org: string)
    | Locked(org: string)
    | Fallback(org: string, read: Read)
    | Checked(org: string, read: Read)
    | Leaving(org: string, result: Option<Read>)
    | Returned(org: string, read: Read)
    | Unavailable(org: string)
    // writeReferencedCIs; Committed says that the server has committed, whether or not the caller learns it
    | Queued(org: string, cis: set<Id>)
    | Granted(org: string, cis: set<Id>)
    | Clear(org: string, cis: set<Id>, writes: nat)
    | Committed(org: string, cis: set<Id>)
    | RolledBack(org: string, cis: set<Id>)

  datatype State = State(orgs: map<string, J.Org>, clients: map<nat, Client>, active: map<string, nat>)

  /** An organization without an epoch row has epoch 0 and no rows. */
  function OrgOf(s: State, o: string): J.Org {
    if o in s.orgs then s.orgs[o] else J.FRESH_ORG
  }

  function ActiveOf(s: State, o: string): nat {
    if o in s.active then s.active[o] else 0
  }

  datatype ClientEvent =
    | BeginRead(org: string)
    | FirstSnapshot(list: seq<Id>)
    | Observe
    | SecondSnapshot(list: seq<Id>)
    | GrantShared
    | FallbackSnapshot(list: seq<Id>)
    | Recheck(list: seq<Id>)
    | BeginWrite(org: string, cis: set<Id>)
    | CheckGap
    | Write
    | Commit
    | GiveUp(rolledBack: bool)
    | BackendLost
    | Finish

  datatype Event = Journal(org: string, je: J.JournalEvent) | Call(c: nat, ce: ClientEvent)

  datatype LockMove = KeepLock | TakeLock | DropLock
  datatype SlotMove = KeepSlot | EnterSlot | LeaveSlot
  datatype Move = Move(client: Client, lock: LockMove, slot: SlotMove)

  function Quiet(client: Client): Move {
    Move(client, KeepLock, KeepSlot)
  }

  /** A query result over the gap of `o`, as every snapshot asks for it. */
  predicate Answers(list: seq<Id>, o: J.Org) {
    IsLimited(list, J.Gap(o), MAX_PENDING_CI_IDS + 1)
  }

  function FreshRead(list: seq<Id>, o: J.Org): Read {
    Read(list, J.View(o.graph, Elements(list)), [])
  }

  function Observed(r: Read, o: J.Org): Read {
    r.(seen := r.seen + [J.View(o.graph, Elements(r.pending))])
  }

  /**
   A refusal: deadline, failed statement or gap. Without a successful ROLLBACK the backend keeps its lock for a while.
   */
  function Abandon(client: Client, lock: LockMove): Option<Move> {
    match client
    case Starting(org) => Some(Quiet(Unavailable(org)))
    case Optimistic(org, _, _) => Some(Quiet(Unavailable(org)))
    case Connecting(org) => Some(Move(Leaving(org, None), lock, KeepSlot))
    case Locked(org) => Some(Move(Leaving(org, None), lock, KeepSlot))
    case Fallback(org, _) => Some(Move(Leaving(org, None), lock, KeepSlot))
    case Checked(org, _) => Some(Move(Leaving(org, None), lock, KeepSlot))
    case Queued(org, cis) => Some(Move(RolledBack(org, cis), lock, KeepSlot))
    case Granted(org, cis) => Some(Move(RolledBack(org, cis), lock, KeepSlot))
    case Clear(org, cis, _) => Some(Move(RolledBack(org, cis), lock, KeepSlot))
    case _ => None
  }

  /** What an existing caller does; a statement inside a transaction needs its backend, hence its lock, to be alive. */
  function React(client: Client, e: ClientEvent, o: J.Org, holds: bool, active: nat): Option<Move> {
    match (client, e)
    case (Starting(org), FirstSnapshot(list)) =>
      if Answers(list, o) && |list| <= MAX_PENDING_CI_IDS then
        Some(Quiet(Optimistic(org, o.epoch, FreshRead(list, o))))
      else None
    case (Optimistic(org, epoch, r), Observe) => Some(Quiet(Optimistic(org, epoch, Observed(r, o))))
    case (Optimistic(org, epoch, r), SecondSnapshot(list)) =>
      if !Answers(list, o) then None
      else if |list| > MAX_PENDING_CI_IDS then Some(Quiet(Unavailable(org)))
      else if o.epoch == epoch && SamePending(r.pending, list) then Some(Quiet(Returned(org, r)))
      else if active >= FALLBACKS_PER_ORG then Some(Quiet(Unavailable(org)))
      else Some(Move(Connecting(org), KeepLock, EnterSlot))
    case (Connecting(org), GrantShared) => Some(Move(Locked(org), TakeLock, KeepSlot))
    case (Locked(org), FallbackSnapshot(list)) =>
      if holds && Answers(list, o) && |list| <= MAX_PENDING_CI_IDS then
        Some(Quiet(Fallback(org, FreshRead(list, o))))
      else None
    case (Fallback(org, r), Observe) => Some(Quiet(Fallback(org, Observed(r, o))))
    case (Fallback(org, r), Recheck(list)) =>
      if holds && Answers(list, o) && |list| <= MAX_PENDING_CI_IDS && SamePending(r.pending, list) then
        Some(Quiet(Checked(org, r)))
      else None
    case (Checked(org, r), Commit) =>
      if holds then Some(Move(Leaving(org, Some(r)), DropLock, KeepSlot)) else None
    case (Leaving(org, result), Finish) =>
      Some(Move(if result.Some? then Returned(org, result.value) else Unavailable(org), KeepLock, LeaveSlot))
    case (Queued(org, cis), GrantShared) => Some(Move(Granted(org, cis), TakeLock, KeepSlot))
    case (Granted(org, cis), CheckGap) =>
      if holds && cis !! J.Gap(o) then Some(Quiet(Clear(org, cis, 0))) else None
    case (Clear(org, cis, n), Write) => if holds then Some(Quiet(Clear(org, cis, n + 1))) else None
    case (Clear(org, cis, _), Commit) =>
      if holds then Some(Move(Committed(org, cis), DropLock, KeepSlot)) else None
    case (_, GiveUp(rolledBack)) => Abandon(client, if rolledBack then DropLock else KeepLock)
    case (_, BackendLost) => Some(Move(client, DropLock, KeepSlot))
    case _ => None
  }

  function Next(s: State, c: nat, e: ClientEvent): Option<Move> {
    if c in s.clients then
      var o := OrgOf(s, s.clients[c].org);
      React(s.clients[c], e, o, c in o.shared, ActiveOf(s, s.clients[c].org))
    else match e
      case BeginRead(org) => Some(Quiet(Starting(org)))
      case BeginWrite(org, cis) => Some(Quiet(Queued(org, cis)))
      case _ => None
  }

  function MoveLock(shared: set<nat>, c: nat, lock: LockMove): set<nat> {
    match lock
    case KeepLock => shared
    case TakeLock => shared + {c}
    case DropLock => shared - {c}
  }

  function Holds(before: bool, lock: LockMove): bool {
    lock == TakeLock || (lock == KeepLock && before)
  }

  /** The update of `activeByOrg`. */
  function MoveSlot(active: map<string, nat>, o: string, slot: SlotMove): map<string, nat> {
    var current := if o in active then active[o] else 0;
    match slot
    case KeepSlot => active
    case EnterSlot => active[o := current + 1]
    case LeaveSlot => if current <= 1 then active - {o} else active[o := current - 1]
  }

  function Perform(s: State, c: nat, m: Move): State {
    var o := OrgOf(s, m.client.org);
    State(s.orgs[m.client.org := o.(shared := MoveLock(o.shared, c, m.lock))],
          s.clients[c := m.client],
          MoveSlot(s.active, m.client.org, m.slot))
  }

  /** One event; an event that cannot happen now changes nothing. */
  function Step(s: State, e: Event): State {
    match e
    case Journal(org, je) =>
      var o := OrgOf(s, org);
      if J.Enabled(o, je) then s.(orgs := s.orgs[org := J.Step(o, je)]) else s
    case Call(c, ce) =>
      var next := Next(s, c, ce);
      if next.Some? then Perform(s, c, next.value) else s
  }

  const INIT := State(map[], map[], map[])

  /** The state after the events `es`, in order. */
  function Run(es: seq<Event>): State {
    if es == [] then INIT else Step(Run(es[..|es| - 1]), es[|es| - 1])
  }

  // ----- the fence -----

  ghost predicate Constant(r: Read) {
    forall i :: 0 <= i < |r.seen| ==> r.seen[i] == r.base
  }

  /** As long as no T1 commits, the gap only shrinks, and while it is whole the visible graph stands still. */
  ghost predicate Fenced(r: Read, o: J.Org) {
    && J.Gap(o) <= Elements(r.pending)
    && (J.Gap(o) == Elements(r.pending) ==> J.View(o.graph, Elements(r.pending)) == r.base && Constant(r))
  }

  ghost predicate Good(client: Client, o: J.Org, holds: bool) {
    match client
    case Optimistic(_, epoch, r) => o.epoch >= epoch && (o.epoch == epoch ==> Fenced(r, o))
    case Fallback(_, r) => holds ==> Fenced(r, o)
    case Checked(_, r) => Constant(r)
    case Leaving(_, result) => result.Some? ==> Constant(result.value)
    case Returned(_, r) => Constant(r)
    case Clear(_, cis, _) => holds ==> cis !! J.Gap(o)
    case _ => true
  }

  ghost predicate ClientInv(s: State, c: nat) {
    c in s.clients ==>
      var o := OrgOf(s, s.clients[c].org);
      Good(s.clients[c], o, c in o.shared)
  }

  ghost predicate Inv(s: State) {
    && (forall o :: J.Inv(OrgOf(s, o)))
    && (forall c :: ClientInv(s, c))
  }

  /** No journal statement breaks a fence: T1 moves the epoch and cannot commit beside a shared holder. */
  lemma JournalKeepsGood(client: Client, o: J.Org, holds: bool, je: J.JournalEvent)
    requires J.Inv(o) && J.Enabled(o, je) && Good(client, o, holds) && (holds ==> o.shared != {})
    ensures Good(client, J.Step(o, je), holds)
  {
    var o' := J.Step(o, je);
    J.GapMonotone(o, je);
    if client.Optimistic? || client.Fallback? {
      var hidden := Elements(client.read.pending);
      if !je.T1? && J.Gap(o') == hidden && Fenced(client.read, o) {
        J.StepIsHidden(o, je, hidden);
      }
    }
  }

  /** The caller's own statement establishes or keeps its fence. */
  lemma ReactKeepsGood(client: Client, e: ClientEvent, o: J.Org, holds: bool, active: nat)
    requires J.Inv(o) && Good(client, o, holds) && React(client, e, o, holds, active).Some?
    ensures var m := React(client, e, o, holds, active).value;
            && m.client.org == client.org
            && Good(m.client, o, Holds(holds, m.lock))
  {
    match e
    case FirstSnapshot(list) => AcceptedListIsComplete(list, J.Gap(o));
    case FallbackSnapshot(list) => AcceptedListIsComplete(list, J.Gap(o));
    case SecondSnapshot(list) =>
      if client.Optimistic? && |list| <= MAX_PENDING_CI_IDS {
        AcceptedListIsComplete(list, J.Gap(o));
        SamePendingDecidesEquality(client.read.pending, list);
      }
    case Recheck(list) =>
      AcceptedListIsComplete(list, J.Gap(o));
      SamePendingDecidesEquality(client.read.pending, list);
    case _ =>
  }

  lemma JournalKeepsInv(s: State, org: string, je: J.JournalEvent)
    requires Inv(s) && J.Enabled(OrgOf(s, org), je)
    ensures Inv(Step(s, Journal(org, je)))
  {
    var s' := Step(s, Journal(org, je));
    J.StepKeepsInv(OrgOf(s, org), je);
    forall o ensures J.Inv(OrgOf(s', o)) {
      assert J.Inv(OrgOf(s, o));
    }
    forall c ensures ClientInv(s', c) {
      assert ClientInv(s, c);
      if c in s.clients && s.clients[c].org == org {
        var o := OrgOf(s, org);
        JournalKeepsGood(s.clients[c], o, c in o.shared, je);
      }
    }
  }

  lemma PerformKeepsInv(s: State, c: nat, m: Move)
    requires Inv(s)
    requires var o := OrgOf(s, m.client.org); Good(m.client, o, Holds(c in o.shared, m.lock))
    ensures Inv(Perform(s, c, m))
  {
    var s' := Perform(s, c, m);
    forall o ensures J.Inv(OrgOf(s', o)) {
      assert J.Inv(OrgOf(s, o));
      assert J.Gap(OrgOf(s', o)) == J.Gap(OrgOf(s, o));
    }
    forall d ensures ClientInv(s', d) {
      assert ClientInv(s, d);
    }
  }

  lemma CallKeepsInv(s: State, c: nat, e: ClientEvent)
    requires Inv(s) && Next(s, c, e).Some?
    ensures Inv(Step(s, Call(c, e)))
  {
    assert ClientInv(s, c);
    if c in s.clients {
      var o := OrgOf(s, s.clients[c].org);
      ReactKeepsGood(s.clients[c], e, o, c in o.shared, ActiveOf(s, s.clients[c].org));
    }
    PerformKeepsInv(s, c, Next(s, c, e).value);
  }

  lemma {:induction false} RunKeepsInv(es: seq<Event>)
    ensures Inv(Run(es))
  {
    if es != [] {
      var s, e := Run(es[..|es| - 1]), es[|es| - 1];
      RunKeepsInv(es[..|es| - 1]);
      match e
      case Journal(org, je) =>
        if J.Enabled(OrgOf(s, org), je) {
          JournalKeepsInv(s, org, je);
        }
      case Call(c, ce) =>
        if Next(s, c, ce).Some? {
          CallKeepsInv(s, c, ce);
        }
    }
  }

  // ----- what a returned read means -----

  predicate HasRead(client: Client) {
    client.Optimistic? || client.Fallback? || client.Checked? || client.Returned? ||
    (client.Leaving? && client.result.Some?)
  }

  function ReadOf(client: Client): Read
    requires HasRead(client)
  {
    if client.Leaving? then client.result.value else client.read
  }

  /** After `k` events the call `c` was between its snapshot and its answer, and `r` hid exactly that state's gap. */
  ghost predicate SnapshotAt(es: seq<Event>, k: nat, c: nat, r: Read)
    requires k <= |es|
  {
    var s := Run(es[..k]);
    && c in s.clients && (s.clients[c].Optimistic? || s.clients[c].Fallback?)
    && var o := OrgOf(s, s.clients[c].org);
       Elements(r.pending) == J.Gap(o) && r.base == J.View(o.graph, J.Gap(o))
  }

  ghost predicate SameRead(a: Client, b: Client) {
    HasRead(a) && HasRead(b) && ReadOf(a).pending == ReadOf(b).pending && ReadOf(a).base == ReadOf(b).base
  }

  ghost predicate TookSnapshot(client: Client, o: J.Org) {
    && (client.Optimistic? || client.Fallback?)
    && Elements(client.read.pending) == J.Gap(o) && client.read.base == J.View(o.graph, J.Gap(o))
  }

  lemma ReactSnapshots(client: Client, e: ClientEvent, o: J.Org, holds: bool, active: nat)
    requires React(client, e, o, holds, active).Some?
    ensures
      var next := React(client, e, o, holds, active).value.client;
      next.org == client.org && (HasRead(next) ==> SameRead(client, next) || TookSnapshot(next, o))
  {
    match e
    case FirstSnapshot(list) => AcceptedListIsComplete(list, J.Gap(o));
    case FallbackSnapshot(list) => AcceptedListIsComplete(list, J.Gap(o));
    case _ =>
  }

  /** A step that changes what a call hides is the call's own snapshot. */
  lemma StepSnapshots(s: State, e: Event, c: nat)
    requires c in Step(s, e).clients && HasRead(Step(s, e).clients[c])
    ensures
      var client := Step(s, e).clients[c];
      || (c in s.clients && SameRead(s.clients[c], client))
      || TookSnapshot(client, OrgOf(Step(s, e), client.org))
  {
    if e.Call? && e.c == c && c in s.clients && Next(s, c, e.ce).Some? {
      var o := OrgOf(s, s.clients[c].org);
      ReactSnapshots(s.clients[c], e.ce, o, c in o.shared, ActiveOf(s, s.clients[c].org));
    }
  }

  lemma {:induction false} ReadHasSnapshot(es: seq<Event>, c: nat) returns (k: nat)
    requires c in Run(es).clients && HasRead(Run(es).clients[c])
    ensures k <= |es| && SnapshotAt(es, k, c, ReadOf(Run(es).clients[c]))
  {
    var before := es[..|es| - 1];
    var s, e := Run(before), es[|es| - 1];
    StepSnapshots(s, e, c);
    if c in s.clients && SameRead(s.clients[c], Run(es).clients[c]) {
      k := ReadHasSnapshot(before, c);
      assert before[..k] == es[..k];
    } else {
      k := |es|;
      assert es[..k] == es;
    }
  }

  /**
   The list read is atomic. In every interleaving, all queries of a returned read, optimistic or locked,
   saw one and the same graph: the graph of a single moment of the call, without that moment's gap.
   */
  lemma ListReadIsAtomic(es: seq<Event>, c: nat) returns (k: nat)
    requires c in Run(es).clients && Run(es).clients[c].Returned?
    ensures k <= |es| && SnapshotAt(es, k, c, Run(es).clients[c].read)
    ensures
      var o := OrgOf(Run(es[..k]), Run(es[..k]).clients[c].org);
      forall g :: g in Run(es).clients[c].read.seen ==> g == J.View(o.graph, J.Gap(o))
  {
    k := ReadHasSnapshot(es, c);
    RunKeepsInv(es);
    assert ClientInv(Run(es), c);
  }

  /** So whatever the caller computes from its queries, it could have computed at that single moment. */
  lemma ResultIsOfOneMoment<T>(es: seq<Event>, c: nat, read: seq<J.Graph> -> T) returns (k: nat)
    requires c in Run(es).clients && Run(es).clients[c].Returned?
    ensures k <= |es| && SnapshotAt(es, k, c, Run(es).clients[c].read)
    ensures
      var seen := Run(es).clients[c].read.seen;
      var o := OrgOf(Run(es[..k]), Run(es[..k]).clients[c].org);
      read(seen) == read(seq(|seen|, _ => J.View(o.graph, J.Gap(o))))
  {
    k := ListReadIsAtomic(es, c);
    var seen := Run(es).clients[c].read.seen;
    var o := OrgOf(Run(es[..k]), Run(es[..k]).clients[c].org);
    var view := J.View(o.graph, J.Gap(o));
    assert forall i | 0 <= i < |seen| :: seen[i] in seen;
    assert seen == seq(|seen|, _ => view);
  }

  /** T1's own cap keeps every gap within the list limit: the refusal of a longer list is only a safeguard. */
  lemma AnswersAreNeverCut(es: seq<Event>, org: string, list: seq<Id>)
    requires Answers(list, OrgOf(Run(es), org))
    ensures |list| <= MAX_PENDING_CI_IDS && Elements(list) == J.Gap(OrgOf(Run(es), org))
  {
    RunKeepsInv(es);
    assert J.Inv(OrgOf(Run(es), org));
    AcceptedListIsComplete(list, J.Gap(OrgOf(Run(es), org)));
  }

  // ----- fallback slots -----

  predicate InFallback(client: Client) {
    client.Connecting? || client.Locked? || client.Fallback? || client.Checked? || client.Leaving?
  }

  function InFlight(s: State, org: string): set<nat> {
    set c | c in s.clients && s.clients[c].org == org && InFallback(s.clients[c])
  }

  predicate CountedIn(inFlight: set<nat>, active: map<string, nat>, org: string) {
    && |inFlight| == (if org in active then active[org] else 0) <= FALLBACKS_PER_ORG
    && (org in active <==> inFlight != {})
  }

  /** `activeByOrg` counts the readers in the fallback, never past the limit, and holds no idle key. */
  ghost predicate SlotInv(s: State) {
    forall org :: Counted(s, org)
  }

  ghost predicate Counted(s: State, org: string) {
    CountedIn(InFlight(s, org), s.active, org)
  }

  lemma ReactSlots(client: Client, e: ClientEvent, o: J.Org, holds: bool, active: nat)
    requires React(client, e, o, holds, active).Some?
    ensures
      var m := React(client, e, o, holds, active).value;
      && m.client.org == client.org
      && (m.slot == KeepSlot ==> (InFallback(client) <==> InFallback(m.client)))
      && (m.slot == EnterSlot ==> !InFallback(client) && InFallback(m.client) && active < FALLBACKS_PER_ORG)
      && (m.slot == LeaveSlot ==> InFallback(client) && !InFallback(m.client))
  {
  }

  lemma InFlightAfter(s: State, c: nat, m: Move, org: string)
    requires c in s.clients ==> s.clients[c].org == m.client.org
    ensures
      InFlight(Perform(s, c, m), org) ==
      if org == m.client.org && InFallback(m.client) then InFlight(s, org) + {c} else InFlight(s, org) - {c}
  {
  }

  function MoveInFlight(inFlight: set<nat>, c: nat, slot: SlotMove): set<nat> {
    match slot
    case KeepSlot => inFlight
    case EnterSlot => inFlight + {c}
    case LeaveSlot => inFlight - {c}
  }

  lemma MoveKeepsCount(inFlight: set<nat>, c: nat, slot: SlotMove, active: map<string, nat>, org: string)
    requires CountedIn(inFlight, active, org)
    requires slot == EnterSlot ==> c !in inFlight && |inFlight| < FALLBACKS_PER_ORG
    requires slot == LeaveSlot ==> c in inFlight
    ensures CountedIn(MoveInFlight(inFlight, c, slot), MoveSlot(active, org, slot), org)
  {
    match slot
    case KeepSlot =>
    case EnterSlot => assert |inFlight + {c}| == |inFlight| + 1;
    case LeaveSlot =>
      assert |inFlight - {c}| == |inFlight| - 1;
      assert inFlight == inFlight - {c} + {c};
  }

  lemma PerformKeepsSlots(s: State, c: nat, m: Move, org: string)
    requires Counted(s, org)
    requires c in s.clients ==> s.clients[c].org == m.client.org
    requires m.slot == KeepSlot ==> (c in InFlight(s, m.client.org) <==> InFallback(m.client))
    requires m.slot == EnterSlot ==>
               c !in InFlight(s, m.client.org) && InFallback(m.client) && ActiveOf(s, m.client.org) < FALLBACKS_PER_ORG
    requires m.slot == LeaveSlot ==> c in InFlight(s, m.client.org) && !InFallback(m.client)
    ensures Counted(Perform(s, c, m), org)
  {
    InFlightMoves(s, c, m, org);
    if org == m.client.org {
      MoveKeepsCount(InFlight(s, org), c, m.slot, s.active, org);
    }
  }

  lemma InFlightMoves(s: State, c: nat, m: Move, org: string)
    requires c in s.clients ==> s.clients[c].org == m.client.org
    requires m.slot == KeepSlot ==> (c in InFlight(s, m.client.org) <==> InFallback(m.client))
    requires m.slot == EnterSlot ==> InFallback(m.client)
    requires m.slot == LeaveSlot ==> !InFallback(m.client)
    ensures InFlight(Perform(s, c, m), org) ==
            if org == m.client.org then MoveInFlight(InFlight(s, org), c, m.slot) else InFlight(s, org)
  {
    InFlightAfter(s, c, m, org);
  }

  /** Slot accounting, in every interleaving and on every exit. */
  lemma {:induction false} RunKeepsSlots(es: seq<Event>)
    ensures SlotInv(Run(es))
  {
    if es != [] {
      var s, e := Run(es[..|es| - 1]), es[|es| - 1];
      RunKeepsSlots(es[..|es| - 1]);
      if e.Journal? {
        forall org ensures Counted(Run(es), org) {
          assert Counted(s, org);
          assert InFlight(Run(es), org) == InFlight(s, org);
        }
      } else if Next(s, e.c, e.ce).Some? {
        if e.c in s.clients {
          var org := s.clients[e.c].org;
          ReactSlots(s.clients[e.c], e.ce, OrgOf(s, org), e.c in OrgOf(s, org).shared, ActiveOf(s, org));
        }
        forall org ensures Counted(Run(es), org) {
          assert Counted(s, org);
          PerformKeepsSlots(s, e.c, Next(s, e.c, e.ce).value, org);
        }
      }
    } else {
      assert forall org :: InFlight(Run(es), org) == {};
    }
  }

  // ----- referenced writes -----

  /** The write to `cis` is inside its transaction, holds the lock, and refers to no CI of the gap. */
  ghost predicate HeldClear(s: State, c: nat, org: string, cis: set<Id>) {
    && c in s.clients && s.clients[c].Clear? && s.clients[c].org == org && s.clients[c].cis == cis
    && c in OrgOf(s, org).shared && cis !! J.Gap(OrgOf(s, org))
  }

  lemma ReactClears(client: Client, e: ClientEvent, o: J.Org, holds: bool, active: nat)
    requires React(client, e, o, holds, active).Some?
    ensures
      var m := React(client, e, o, holds, active).value;
      && m.client.org == client.org
      && (m.client.Clear? ==> m.lock != TakeLock && m.client.cis == client.cis
                              && (client.Clear? || (client.Granted? && e == CheckGap)))
      && (m.client.Committed? ==>
            client == m.client || (client.Clear? && holds && e == Commit && m.client.cis == client.cis))
  {
  }

  /** The call `c` was a locked write to `cis` that found no gap yet, or none so far. */
  ghost predicate HeldLock(s: State, c: nat, org: string, cis: set<Id>) {
    && c in s.clients && s.clients[c].org == org
    && (s.clients[c].Clear? || s.clients[c].Granted?) && s.clients[c].cis == cis
    && c in OrgOf(s, org).shared
  }

  /** A write that is clear and locked was locked one event earlier, and clear unless it checked the gap just now. */
  lemma StepClears(s: State, e: Event, c: nat, org: string, cis: set<Id>)
    requires
      var s' := Step(s, e);
      && c in s'.clients && s'.clients[c].Clear? && s'.clients[c].org == org && s'.clients[c].cis == cis
      && c in OrgOf(s', org).shared
    ensures HeldLock(s, c, org, cis) && (s.clients[c].Clear? || e == Call(c, CheckGap))
  {
    if e.Call? && e.c == c && c in s.clients && Next(s, c, e.ce).Some? {
      var o := OrgOf(s, s.clients[c].org);
      ReactClears(s.clients[c], e.ce, o, c in o.shared, ActiveOf(s, s.clients[c].org));
    }
  }

  /** A committed write was committed before, or commits now and was clear and locked. */
  lemma StepCommits(s: State, e: Event, c: nat, org: string, cis: set<Id>)
    requires Step(s, e).clients.Keys >= {c} && Step(s, e).clients[c] == Client.Committed(org, cis)
    ensures
      || (c in s.clients && s.clients[c] == Client.Committed(org, cis))
      || (e == Call(c, Commit) && HeldLock(s, c, org, cis) && s.clients[c].Clear?)
  {
    if e.Call? && e.c == c && c in s.clients && Next(s, c, e.ce).Some? {
      var o := OrgOf(s, s.clients[c].org);
      ReactClears(s.clients[c], e.ce, o, c in o.shared, ActiveOf(s, s.clients[c].org));
    }
  }

  /** Held at every moment from event `a` on. */
  ghost predicate HeldFrom(es: seq<Event>, a: nat, c: nat, org: string, cis: set<Id>) {
    a <= |es| && forall j | a <= j <= |es| :: HeldClear(Run(es[..j]), c, org, cis)
  }

  lemma HeldGrows(es: seq<Event>, a: nat, c: nat, org: string, cis: set<Id>)
    requires es != [] && HeldClear(Run(es), c, org, cis)
    requires a == |es| || HeldFrom(es[..|es| - 1], a, c, org, cis)
    ensures HeldFrom(es, a, c, org, cis)
  {
    var before := es[..|es| - 1];
    forall j | a <= j <= |es| ensures HeldClear(Run(es[..j]), c, org, cis) {
      if j == |es| {
        assert es[..j] == es;
      } else {
        assert es[..j] == before[..j];
      }
    }
  }

  /** From its gap check on, a locked write stays locked and clear. */
  lemma {:induction false} ClearSinceCheck(es: seq<Event>, c: nat) returns (a: nat)
    requires c in Run(es).clients && Run(es).clients[c].Clear?
    requires c in OrgOf(Run(es), Run(es).clients[c].org).shared
    ensures 0 < a <= |es| && es[a - 1] == Call(c, CheckGap)
    ensures HeldFrom(es, a, c, Run(es).clients[c].org, Run(es).clients[c].cis)
  {
    var before := es[..|es| - 1];
    StepClears(Run(before), es[|es| - 1], c, Run(es).clients[c].org, Run(es).clients[c].cis);
    RunKeepsInv(es);
    assert ClientInv(Run(es), c);
    if Run(before).clients[c].Clear? {
      a := ClearSinceCheck(before, c);
    } else {
      a := |es|;
    }
    HeldGrows(es, a, c, Run(es).clients[c].org, Run(es).clients[c].cis);
  }

  /**
   No referenced write commits against a gap. A committed write checked the gap at some event `a`, committed at a
   later event `b`, and at every moment in between it held the shared lock while none of its CIs was pending or failed.
   */
  lemma {:induction false} WriteCommitsClear(es: seq<Event>, c: nat) returns (a: nat, b: nat)
    requires c in Run(es).clients && Run(es).clients[c].Committed?
    ensures 0 < a <= b < |es| && es[a - 1] == Call(c, CheckGap) && es[b] == Call(c, Commit)
    ensures forall j | a <= j <= b :: HeldClear(Run(es[..j]), c, Run(es).clients[c].org, Run(es).clients[c].cis)
  {
    var before := es[..|es| - 1];
    var s := Run(before);
    StepCommits(s, es[|es| - 1], c, Run(es).clients[c].org, Run(es).clients[c].cis);
    if s.clients[c].Committed? {
      a, b := WriteCommitsClear(before, c);
    } else {
      a := ClearSinceCheck(before, c);
      b := |before|;
    }
    forall j | a <= j <= b ensures HeldClear(Run(es[..j]), c, Run(es).clients[c].org, Run(es).clients[c].cis) {
      assert before[..j] == es[..j];
    }
  }
}
