/**
 The exits of `readCIList`: whichever statement fails, the slot is given up, the connection goes back to the pool
 exactly once, the one case in which a transaction survives on a pooled connection is named, and a result is only
 returned after its recheck.
 */
module ListRead {
  import opened Wrappers
  import opened ReferencedWrite
  import ReadFence

  type Id = ReadFence.Id

  /** The row of a snapshot query. */
  datatype Snapshot = Snapshot(epoch: nat, pending: seq<Id>)

  /**
   What each awaited call gives in this run. A deadline that has passed at the check before or after a call counts as
   that call failing with unavailability. `lost` is the error event of a backend that goes away while it is held;
   `beginCarriedOut` and `commitCarriedOut` say that the server does what the client's timeout gave up on.
   */
  datatype Replies<T> = Replies(
    first: Option<Snapshot>,
    optimistic: Result<T, Failure>,
    second: Option<Snapshot>,
    connect: Option<Failure>,
    begin: Option<Failure>,
    beginCarriedOut: bool,
    lock: Option<Failure>,
    pending: Result<seq<Id>, Failure>,
    locked: Result<T, Failure>,
    latest: Result<seq<Id>, Failure>,
    commit: Option<Failure>,
    commitCarriedOut: bool,
    rollback: Option<Failure>,
    lost: Option<Failure>)

  /** A snapshot that `snapshot` returns instead of refusing. */
  predicate Accepted(s: Option<Snapshot>) {
    s.Some? && |s.value.pending| <= ReadFence.MAX_PENDING_CI_IDS
  }

  predicate SameSet(a: seq<Id>, b: seq<Id>) {
    |a| == |b| && ReadFence.Elements(a) == ReadFence.Elements(b)
  }

  /** Both snapshots and the read between them succeeded. */
  predicate Attempted<T>(r: Replies<T>) {
    Accepted(r.first) && r.optimistic.Ok? && Accepted(r.second)
  }

  /** The optimistic read is fenced: nothing was reserved and nothing became pending or settled meanwhile. */
  predicate Agreed<T>(r: Replies<T>) {
    && Attempted(r)
    && r.first.value.epoch == r.second.value.epoch && SameSet(r.first.value.pending, r.second.value.pending)
  }

  /** The locked read is fenced by its recheck, and its transaction committed. */
  predicate Rechecked<T>(r: Replies<T>) {
    && r.lock.None?
    && r.pending.Ok? && |r.pending.value| <= ReadFence.MAX_PENDING_CI_IDS
    && r.locked.Ok? && r.latest.Ok? && SameSet(r.pending.value, r.latest.value)
    && r.commit.None?
  }

  function ErrorOf<U>(r: Result<U, Failure>): Option<Failure> {
    if r.Err? then Some(r.error) else None
  }

  function Check(holds: bool): Option<Failure> {
    if holds then None else Some(Unavailable)
  }

  /** The first error inside the fallback's transaction, in statement order. */
  function LockedFailure<T>(r: Replies<T>): Option<Failure> {
    Or(r.lock, Or(ErrorOf(r.pending),
      Or(Check(r.pending.Ok? ==> |r.pending.value| <= ReadFence.MAX_PENDING_CI_IDS),
      Or(ErrorOf(r.locked), Or(ErrorOf(r.latest),
      Or(Check(r.pending.Ok? && r.latest.Ok? ==> SameSet(r.pending.value, r.latest.value)), r.commit))))))
  }

  /** Inside the fallback every error but a gap is reported as unavailability. */
  function Outward(error: Failure): Failure {
    if error == Gap then Gap else Unavailable
  }

  /** The answer of the call, by the order of its statements; `free` says whether the organization has a slot left. */
  function Outcome<T>(r: Replies<T>, free: bool): Result<T, Failure> {
    if !Accepted(r.first) then Err(Unavailable)
    else if r.optimistic.Err? then r.optimistic
    else if !Accepted(r.second) then Err(Unavailable)
    else if Agreed(r) then r.optimistic
    else if !free then Err(Unavailable)
    else
      var failure := Or(r.connect, Or(r.begin, LockedFailure(r)));
      if failure.Some? then Err(Outward(failure.value)) else r.locked
  }

  /** The call enters the fallback. */
  predicate Falls<T>(r: Replies<T>, free: bool) {
    Attempted(r) && !Agreed(r) && free
  }

  /** A result is returned exactly when a fence held around the read that produced it. */
  lemma AnsweredIffFenced<T>(r: Replies<T>, free: bool)
    ensures Outcome(r, free).Ok? <==> Agreed(r) || (Falls(r, free) && r.connect.None? && r.begin.None? && Rechecked(r))
    ensures Outcome(r, free).Ok? ==> Outcome(r, free) == if Agreed(r) then r.optimistic else r.locked
    ensures Falls(r, free) && Outcome(r, free).Err? ==> Outcome(r, free).error in {Gap, Unavailable}
  {
  }

  /**
   The errors before the fallback: a snapshot that fails or names more than 1000 CIs is unavailability, the read's own
   error is passed on as it is, and so is its result when epoch and pending set are the same in both snapshots.
   */
  lemma AnswersBeforeFallback<T>(r: Replies<T>, free: bool)
    ensures r.first.None? || |r.first.value.pending| > 1000 ==> Outcome(r, free) == Err(Unavailable)
    ensures r.first.Some? && |r.first.value.pending| <= 1000 && r.optimistic.Err? ==> Outcome(r, free) == r.optimistic
    ensures r.first.Some? && |r.first.value.pending| <= 1000 && r.optimistic.Ok? ==>
              && (r.second.None? || |r.second.value.pending| > 1000 ==> Outcome(r, free) == Err(Unavailable))
              && (r.second.Some? && |r.second.value.pending| <= 1000 ==>
                    var a, b := r.first.value, r.second.value;
                    var same := && a.epoch == b.epoch && |a.pending| == |b.pending|
                                && forall x :: x in a.pending <==> x in b.pending;
                    && (same ==> Outcome(r, free) == r.optimistic)
                    && (!same && !free ==> Outcome(r, free) == Err(Unavailable))
                    && (Falls(r, free) <==> !same && free))
  {
    if Attempted(r) {
      SameSetIff(r.first.value.pending, r.second.value.pending);
    }
  }

  lemma SameSetIff(a: seq<Id>, b: seq<Id>)
    ensures SameSet(a, b) <==> |a| == |b| && forall x :: x in a <==> x in b
  {
    if SameSet(a, b) {
      forall x ensures x in a <==> x in b {
        assert x in ReadFence.Elements(a) <==> x in ReadFence.Elements(b);
      }
    }
  }

  /**
   What each step of the fallback fails with, in the order of the calls; the two tests on lists fail by themselves.
   */
  function FallbackSteps<T>(r: Replies<T>): seq<Option<Failure>> {
    [ r.connect,
      r.begin,
      r.lock,
      if r.pending.Err? then Some(r.pending.error) else None,
      if r.pending.Ok? && |r.pending.value| > 1000 then Some(Unavailable) else None,
      if r.locked.Err? then Some(r.locked.error) else None,
      if r.latest.Err? then Some(r.latest.error) else None,
      if r.pending.Ok? && r.latest.Ok?
         && !(|r.pending.value| == |r.latest.value| && forall x | x in r.pending.value + r.latest.value ::
                x in r.pending.value && x in r.latest.value)
      then Some(Unavailable) else None,
      r.commit ]
  }

  /** The answer of a call in the fallback: a gap exactly when the first step to fail did so with a gap. */
  lemma AnswersOfFallback<T>(r: Replies<T>, free: bool)
    requires Falls(r, free)
    ensures Outcome(r, free) == Err(Gap) <==>
            exists k :: FailsFirst(FallbackSteps(r), k) && FallbackSteps(r)[k] == Some(Gap)
    ensures Outcome(r, free) == Err(Unavailable) <==>
            exists k :: FailsFirst(FallbackSteps(r), k) && FallbackSteps(r)[k] != Some(Gap)
    ensures Outcome(r, free) == r.locked && r.locked.Ok? <==> forall k | 0 <= k < 9 :: FallbackSteps(r)[k].None?
  {
    var steps := FallbackSteps(r);
    if r.pending.Ok? && r.latest.Ok? {
      SameSetIff(r.pending.value, r.latest.value);
    }
    ChainIsOr(r);
    FirstOfChain(steps, 0);
  }

  lemma ChainIsOr<T>(r: Replies<T>)
    ensures Chain(FallbackSteps(r), 0) == Or(r.connect, Or(r.begin, LockedFailure(r)))
  {
    var s := FallbackSteps(r);
    if r.pending.Ok? && r.latest.Ok? {
      SameSetIff(r.pending.value, r.latest.value);
    }
    assert Chain(s, 9) == None && Chain(s, 8) == r.commit;
    assert Chain(s, 7) == Or(s[7], Chain(s, 8)) && Chain(s, 6) == Or(s[6], Chain(s, 7))
           && Chain(s, 5) == Or(s[5], Chain(s, 6));
    assert Chain(s, 4) == Or(s[4], Chain(s, 5)) && Chain(s, 3) == Or(s[3], Chain(s, 4))
           && Chain(s, 2) == Or(s[2], Chain(s, 3));
    assert Chain(s, 1) == Or(s[1], Chain(s, 2)) && Chain(s, 0) == Or(s[0], Chain(s, 1));
  }

  /** The first failure among the steps from `k` on. */
  function Chain(steps: seq<Option<Failure>>, k: nat): Option<Failure>
    requires k <= |steps|
    decreases |steps| - k
  {
    if k == |steps| then None else if steps[k].Some? then steps[k] else Chain(steps, k + 1)
  }

  lemma {:induction false} FirstOfChain(steps: seq<Option<Failure>>, k: nat)
    requires k <= |steps| && forall j | 0 <= j < k :: steps[j].None?
    ensures Chain(steps, k).None? <==> forall j | 0 <= j < |steps| :: steps[j].None?
    ensures forall i :: FailsFirst(steps, i) ==> Chain(steps, k) == steps[i]
    ensures Chain(steps, k).Some? ==> exists i :: FailsFirst(steps, i) && steps[i] == Chain(steps, k)
    decreases |steps| - k
  {
    if k < |steps| {
      if steps[k].Some? {
        assert FailsFirst(steps, k);
      } else {
        FirstOfChain(steps, k + 1);
      }
    }
  }

  class ListReader {
    var activeByOrg: map<string, nat>

    ghost predicate Valid()
      reads this
    {
      forall org :: org in activeByOrg ==> 1 <= activeByOrg[org] <= ReadFence.FALLBACKS_PER_ORG
    }

    predicate Free(org: string)
      reads this
    {
      org in activeByOrg ==> activeByOrg[org] < ReadFence.FALLBACKS_PER_ORG
    }

    constructor ()
      ensures Valid() && activeByOrg == map[]
    {
      activeByOrg := map[];
    }

    /** The statements between BEGIN and its end. */
    method LockedRead<T>(client: Connection, r: Replies<T>) returns (answer: Result<T, Failure>)
      requires client.inTransaction && !client.aborted && !client.committed
      modifies client`inTransaction, client`committed
      ensures answer == if LockedFailure(r).Some? then Err(LockedFailure(r).value) else r.locked
      ensures LockedFailure(r).None? ==> client.committed
      ensures client.committed <==> !client.inTransaction
      ensures client.committed && answer.Err? ==> r.commit.Some? && r.commitCarriedOut
    {
      if r.lock.Some? {
        return Err(r.lock.value);
      }
      if r.pending.Err? {
        return Err(r.pending.error);
      }
      if |r.pending.value| > ReadFence.MAX_PENDING_CI_IDS {
        return Err(Unavailable);
      }
      if r.locked.Err? {
        return r.locked;
      }
      if r.latest.Err? {
        return Err(r.latest.error);
      }
      ReadFence.SamePendingDecidesEquality(r.pending.value, r.latest.value);
      if |r.latest.value| > ReadFence.MAX_PENDING_CI_IDS || !ReadFence.SamePending(r.pending.value, r.latest.value) {
        return Err(Unavailable);
      }
      var failed := client.Commit(r.commit, r.commitCarriedOut);
      answer := if failed.Some? then Err(failed.value) else r.locked;
    }

    /** The fallback after its slot was taken. */
    method Fallback<T>(client: Connection, r: Replies<T>) returns (answer: Result<T, Failure>)
      requires !client.inTransaction && !client.aborted && !client.committed && client.returned == 0
               && !client.destroyed
      modifies client
      ensures var failure := Or(r.connect, Or(r.begin, LockedFailure(r)));
              answer == if failure.Some? then Err(Outward(failure.value)) else r.locked
      ensures client.returned == if r.connect.Some? then 0 else 1
      ensures client.inTransaction && !client.destroyed <==>
              r.connect.None? && r.begin.Some? && r.beginCarriedOut && r.lost.None?
      ensures answer.Ok? ==> client.committed
    {
      if r.connect.Some? {
        return Err(Outward(r.connect.value));
      }
      var broken := r.lost;
      var error := client.Begin(r.begin, r.begin.Some? && r.beginCarriedOut);
      if error.Some? {
        answer := Err(error.value);
      } else {
        answer := LockedRead(client, r);
        if answer.Err? {
          var failed := client.Rollback(r.rollback);
          broken := Or(failed, broken);
        }
      }
      client.Release(broken);
      if answer.Err? {
        answer := Err(Outward(answer.error));
      }
    }

    /** The whole call. The pool would hand out `client`; no other call of the organization runs meanwhile. */
    method ReadCIList<T>(org: string, client: Connection, r: Replies<T>) returns (answer: Result<T, Failure>)
      requires Valid()
      requires !client.inTransaction && !client.aborted && !client.committed && client.returned == 0
               && !client.destroyed
      modifies this, client
      ensures answer == Outcome(r, old(Free(org)))
      // A slot is free while fewer than two calls of the organization are in the fallback.
      ensures Falls(r, true) ==> (Falls(r, old(Free(org))) <==> org !in old(activeByOrg) || old(activeByOrg)[org] < 2)
      ensures activeByOrg == old(activeByOrg)
      ensures client.returned == if Falls(r, old(Free(org))) && r.connect.None? then 1 else 0
      // A pooled connection is left inside a transaction in one case only: a BEGIN that timed out but was carried out.
      ensures client.inTransaction && !client.destroyed <==>
              Falls(r, old(Free(org))) && r.connect.None? && r.begin.Some? && r.beginCarriedOut && r.lost.None?
      ensures answer.Ok? && !Agreed(r) ==> client.committed
    {
      if !Accepted(r.first) {
        return Err(Unavailable);
      }
      if r.optimistic.Err? {
        return r.optimistic;
      }
      if !Accepted(r.second) {
        return Err(Unavailable);
      }
      var first, second := r.first.value, r.second.value;
      ReadFence.SamePendingDecidesEquality(first.pending, second.pending);
      if second.epoch == first.epoch && ReadFence.SamePending(first.pending, second.pending) {
        return r.optimistic;
      }
      var active := if org in activeByOrg then activeByOrg[org] else 0;
      if active >= ReadFence.FALLBACKS_PER_ORG {
        return Err(Unavailable);
      }
      activeByOrg := activeByOrg[org := active + 1];
      answer := Fallback(client, r);
      var current := activeByOrg[org];
      if current == 1 {
        activeByOrg := activeByOrg - {org};
      } else {
        activeByOrg := activeByOrg[org := current - 1];
      }
    }
  }
}
