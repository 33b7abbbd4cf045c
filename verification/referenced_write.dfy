/**
 The exits of `writeReferencedCIs`: whichever statement fails, the turn is given up, the connection goes
 back to the pool exactly once, and the one case in which a transaction survives on a pooled connection is named.
 */
module ReferencedWrite {
  import opened Wrappers

  datatype Failure = LockTimeout | Gap | Unavailable | Other(code: string)

  /**
   What each awaited call does in this run: nothing, or reject with the given error. A BEGIN or COMMIT may reject and
   still be carried out by the server, when only its answer is lost. `writeAborts` says that one of the caller's own
   statements failed, which aborts the transaction, although the caller's write returns normally.
   */
  datatype Faults = Faults(
    connect: Option<Failure>,
    begin: Option<Failure>,
    beginCarriedOut: bool,
    setTimeout: Option<Failure>,
    lock: Option<Failure>,
    gapQuery: Option<Failure>,
    gapFound: bool,
    write: Option<Failure>,
    writeAborts: bool,
    commit: Option<Failure>,
    commitCarriedOut: bool,
    rollback: Option<Failure>)

  /** A pooled PostgreSQL session. */
  class Connection {
    var inTransaction: bool
    /** The transaction can only be rolled back; COMMIT then does so, and succeeds. */
    var aborted: bool
    var committed: bool
    var returned: nat
    var destroyed: bool

    constructor ()
      ensures !inTransaction && !aborted && !committed && returned == 0 && !destroyed
    {
      inTransaction, aborted, committed, returned, destroyed := false, false, false, 0, false;
    }

    /** A statement inside the transaction fails. */
    method FailStatement()
      modifies this`aborted
      ensures aborted
    {
      aborted := true;
    }

    /** A BEGIN whose answer is lost may still be `carriedOut`. */
    method Begin(fault: Option<Failure>, carriedOut: bool) returns (r: Option<Failure>)
      modifies this`inTransaction
      ensures r == fault && inTransaction == (fault.None? || carriedOut || old(inTransaction))
    {
      r := fault;
      if fault.None? || carriedOut {
        inTransaction := true;
      }
    }

    method Commit(fault: Option<Failure>, carriedOut: bool) returns (r: Option<Failure>)
      modifies this`inTransaction, this`committed
      ensures r == fault
      ensures fault.None? || carriedOut ==> !inTransaction && committed == (!aborted || old(committed))
      ensures fault.Some? && !carriedOut ==> inTransaction == old(inTransaction) && committed == old(committed)
    {
      r := fault;
      if fault.None? || carriedOut {
        inTransaction, committed := false, !aborted || committed;
      }
    }

    method Rollback(fault: Option<Failure>) returns (r: Option<Failure>)
      modifies this`inTransaction
      ensures r == fault && inTransaction == (fault.Some? && old(inTransaction))
    {
      r := fault;
      if fault.None? {
        inTransaction := false;
      }
    }

    /** `release(broken)`: with an error the pool destroys the connection instead of keeping it. */
    method Release(broken: Option<Failure>)
      modifies this`returned, this`destroyed
      ensures returned == old(returned) + 1 && destroyed == (broken.Some? || old(destroyed))
    {
      returned := returned + 1;
      if broken.Some? {
        destroyed := true;
      }
    }
  }

  /** The ticket of `lockTurn`; releasing it twice is harmless. */
  class Turn {
    var released: bool

    method Release()
      modifies this
      ensures released
    {
      released := true;
    }
  }

  function Or(first: Option<Failure>, second: Option<Failure>): Option<Failure> {
    if first.Some? then first else second
  }

  /** The first error before COMMIT, in statement order. */
  function EarlyFailure(f: Faults): Option<Failure> {
    Or(f.setTimeout, Or(f.lock, Or(f.gapQuery, Or(if f.gapFound then Some(Gap) else None, f.write))))
  }

  /** The first error inside the transaction. */
  function FirstFailure(f: Faults): Option<Failure> {
    Or(EarlyFailure(f), f.commit)
  }

  /** COMMIT is reached and carried out, whether its answer arrives or not. */
  predicate Ends(f: Faults) {
    EarlyFailure(f).None? && (f.commit.None? || f.commitCarriedOut)
  }

  /** The server commits: moreover, no statement of the caller's write failed unnoticed. */
  predicate Commits(f: Faults) {
    Ends(f) && !f.writeAborts
  }

  /** A lock timeout of the database is reported as an unavailable journal. */
  function Reported(error: Failure): Failure {
    if error == LockTimeout then Unavailable else error
  }

  /** The answer of the call, by the order of its statements. */
  function Answer(f: Faults): Result<(), Failure> {
    if f.connect.Some? then Err(f.connect.value)
    else if f.begin.Some? then Err(f.begin.value)
    else if FirstFailure(f).Some? then Err(Reported(FirstFailure(f).value))
    else Ok(())
  }

  /** What each step inside the transaction fails with, in the order of the calls. */
  function WriteSteps(f: Faults): seq<Option<Failure>> {
    [f.setTimeout, f.lock, f.gapQuery, if f.gapFound then Some(Gap) else None, f.write, f.commit]
  }

  /** Step `k` is the first to fail. */
  predicate FailsFirst(steps: seq<Option<Failure>>, k: int) {
    0 <= k < |steps| && steps[k].Some? && forall j | 0 <= j < k :: steps[j].None?
  }

  /**
   The answer of the call: an error of connecting or of BEGIN as it is; then the first step to fail, a lock timeout, and
   only that, as unavailability and any other error as it is; success when none fails.
   */
  lemma AnswersInOrder(f: Faults)
    ensures f.connect.Some? ==> Answer(f) == Err(f.connect.value)
    ensures f.connect.None? && f.begin.Some? ==> Answer(f) == Err(f.begin.value)
    ensures f.connect.None? && f.begin.None? ==>
              forall k | FailsFirst(WriteSteps(f), k) ::
                var error := WriteSteps(f)[k].value;
                && (error == LockTimeout ==> Answer(f) == Err(Unavailable))
                && (error != LockTimeout ==> Answer(f) == Err(error))
    ensures Answer(f).Ok? <==> f.connect.None? && f.begin.None? && forall k | 0 <= k < 6 :: WriteSteps(f)[k].None?
  {
    var steps := WriteSteps(f);
    assert steps[0] == f.setTimeout && steps[1] == f.lock && steps[2] == f.gapQuery && steps[4] == f.write
           && steps[5] == f.commit;
    assert steps[3].Some? <==> f.gapFound;
  }

  /** The statements between BEGIN and COMMIT; `writing` says whether the caller's write was started. */
  method Transaction(turn: Turn, client: Connection, f: Faults) returns (error: Option<Failure>, writing: bool)
    requires client.inTransaction && !client.committed && !client.aborted
    modifies turn, client`inTransaction, client`committed, client`aborted
    ensures error == FirstFailure(f)
    ensures client.committed <==> Commits(f)
    ensures client.inTransaction <==> !Ends(f)
    ensures f.setTimeout.Some? || f.lock.Some? ==> turn.released == old(turn.released)
    ensures writing ==> turn.released && !f.gapFound && f.lock.None? && f.gapQuery.None?
    ensures client.committed ==> writing
  {
    writing := false;
    if f.setTimeout.Some? {
      return f.setTimeout, false;
    }
    if f.lock.Some? {
      return f.lock, false;
    }
    turn.Release();
    if f.gapQuery.Some? {
      return f.gapQuery, false;
    }
    if f.gapFound {
      return Some(Gap), false;
    }
    if f.write.Some? {
      return f.write, true;
    }
    if f.writeAborts {
      client.FailStatement();
    }
    error := client.Commit(f.commit, f.commitCarriedOut);
    writing := true;
  }

  /**
   The whole call after its turn was granted. `client` is the session the pool would hand out; it is checked out
   only if connecting succeeds.
   */
  method WriteReferencedCIs(turn: Turn, client: Connection, f: Faults) returns (answer: Result<(), Failure>)
    requires !client.inTransaction && !client.aborted && !client.committed && client.returned == 0 && !client.destroyed
    modifies turn, client
    ensures answer == Answer(f)
    ensures turn.released
    ensures client.returned == if f.connect.Some? then 0 else 1
    ensures client.inTransaction && !client.destroyed <==> f.connect.None? && f.begin.Some? && f.beginCarriedOut
    ensures client.destroyed ==> f.connect.None? && f.begin.None? && FirstFailure(f).Some? && f.rollback.Some?
    // The caller is told wrongly in two cases only: a write that hid a failed statement, and a lost answer to COMMIT.
    ensures client.committed <==> f.connect.None? && f.begin.None? && Commits(f)
    ensures answer.Ok? && !client.committed <==>
            f.connect.None? && f.begin.None? && FirstFailure(f).None? && f.writeAborts
    ensures client.committed && answer.Err? <==>
            f.connect.None? && f.begin.None? && Commits(f) && f.commit.Some?
  {
    if f.connect.Some? {
      turn.Release();
      return Err(f.connect.value);
    }
    var broken: Option<Failure> := None;
    var error := client.Begin(f.begin, f.begin.Some? && f.beginCarriedOut);
    if error.None? {
      var failed, _ := Transaction(turn, client, f);
      if failed.Some? {
        broken := client.Rollback(f.rollback);
        error := Some(Reported(failed.value));
      }
    }
    turn.Release();
    client.Release(broken);
    answer := if error.Some? then Err(error.value) else Ok(());
  }
}
