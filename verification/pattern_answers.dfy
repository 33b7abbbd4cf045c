/** What the storage and workflow calls answer, and what each leaves in every store, case by case. */
module PatternAnswers {
  import opened Wrappers
  import opened PatternLifecycle

  // ----- reading -----

  /**
   Where a looked-up row comes from, and which copies it leaves; only a database that is asked and fails is an error.
   */
  lemma LookupAnswers(s: Store, id: string, f: Faults)
    ensures
      var (found, s') := Lookup(s, id, f);
      var inMemory, inRedis := id in s.memory, id in s.entries && !f.get;
      && (inMemory ==> found == Ok(Some(s.memory[id])) && s' == s)
      && (!inMemory && inRedis ==>
            found == Ok(Some(s.entries[id])) && s'.memory == s.memory[id := s.entries[id]] && s'.entries == s.entries)
      && (!inMemory && !inRedis && !f.read && id in s.rows ==>
            && found == Ok(Some(s.rows[id])) && s'.memory == s.memory[id := s.rows[id]]
            && s'.entries == if f.set_ then s.entries else s.entries[s.rows[id].id := s.rows[id]])
      && (!inMemory && !inRedis && !f.read && id !in s.rows ==> found == Ok(None) && s' == s)
      && (found.Err? <==> !inMemory && !inRedis && f.read) && (found.Err? ==> found == Err(Internal) && s' == s)
      && s'.rows == s.rows && s'.history == s.history && s'.list == s.list
  {
  }

  lemma {:induction false} ByIdKeys(list: seq<Row>)
    ensures forall id :: id in ById(list) <==> exists i :: 0 <= i < |list| && list[i].id == id
  {
    if list != [] {
      var n := |list| - 1;
      ByIdKeys(list[..n]);
      forall id ensures id in ById(list) <==> exists i :: 0 <= i < |list| && list[i].id == id {
        if id in ById(list) && id != list[n].id {
          assert id in ById(list[..n]);
          var i :| 0 <= i < n && list[..n][i].id == id;
          assert list[i].id == id;
        }
        if i :| 0 <= i < n && list[i].id == id {
          assert list[..n][i].id == id;
        }
      }
    }
  }

  lemma {:induction false} ByIdRow(list: seq<Row>, i: nat)
    requires i < |list| && forall j | i < j < |list| :: list[j].id != list[i].id
    ensures list[i].id in ById(list) && ById(list)[list[i].id] == list[i]
  {
    var n := |list| - 1;
    if i < n {
      assert list[n].id != list[i].id && list[..n][i] == list[i];
      ByIdRow(list[..n], i);
    }
  }

  lemma ByIdIs(list: seq<Row>)
    ensures forall id :: id in ById(list) <==> exists i :: 0 <= i < |list| && list[i].id == id
    ensures forall i | 0 <= i < |list| && (forall j | i < j < |list| :: list[j].id != list[i].id) ::
              list[i].id in ById(list) && ById(list)[list[i].id] == list[i]
  {
    ByIdKeys(list);
    forall i | 0 <= i < |list| && (forall j | i < j < |list| :: list[j].id != list[i].id)
      ensures list[i].id in ById(list) && ById(list)[list[i].id] == list[i]
    {
      ByIdRow(list, i);
    }
  }

  /**
   Loading: an error exactly when the database is asked and fails, and then nothing changes. Otherwise the answer is the
   Redis list or the rows of the query, and memory holds exactly the rows answered, each under its id. The rows of the
   query become the Redis list unless Redis refuses them.
   */
  lemma LoadAnswers(s: Store, authoritative: bool, active: seq<Row>, f: Faults)
    ensures
      var (answer, s') := Load(s, authoritative, active, f);
      var fromRedis := !authoritative && !f.get && s.list.Some?;
      && (answer.Err? <==> !fromRedis && f.read) && (answer.Err? ==> answer == Err(Internal) && s' == s)
      && (answer.Ok? ==>
            && answer.value == (if fromRedis then s.list.value else active)
            && (forall id :: id in s'.memory <==> exists i :: 0 <= i < |answer.value| && answer.value[i].id == id)
            && ((forall i, j | 0 <= i < j < |answer.value| :: answer.value[i].id != answer.value[j].id) ==>
                  forall i | 0 <= i < |answer.value| ::
                    answer.value[i].id in s'.memory && s'.memory[answer.value[i].id] == answer.value[i])
            && s'.list == (if fromRedis || f.set_ then s.list else Some(active)))
      && s'.rows == s.rows && s'.history == s.history && s'.entries == s.entries
  {
    ByIdIs(active);
    if s.list.Some? {
      ByIdIs(s.list.value);
    }
  }

  // ----- the lifecycle -----

  /** The actions at the end of a history. */
  predicate EndsWith(history: seq<Entry>, actions: seq<Action>) {
    |actions| <= |history|
    && forall i | 0 <= i < |actions| :: history[|history| - |actions| + i].action == actions[i]
  }

  lemma LastTwo(history: seq<Entry>)
    requires Legal(history) && history != []
    ensures Legal(history[..|history| - 1])
    ensures Replay(history) == Target(history[|history| - 1].action)
    ensures Source(history[|history| - 1].action) == Replay(history[..|history| - 1])
  {
    var before := history[..|history| - 1];
    assert forall k | 0 <= k < |before| :: before[..k] == history[..k];
  }

  /**
   What a status says about the past. A draft is new or was rejected; a pattern under review was just submitted; an
   approved one was submitted and approved, an active one then activated, a deprecated one then deactivated, with
   nothing in between.
   */
  lemma {:induction false} StatusTellsThePast(history: seq<Entry>)
    requires Legal(history)
    ensures Replay(history) == Draft ==> history == [] || EndsWith(history, [Submit, Reject])
    ensures Replay(history) == Review ==> EndsWith(history, [Submit])
    ensures Replay(history) == Approved ==> EndsWith(history, [Submit, Approve])
    ensures Replay(history) == Active ==> EndsWith(history, [Submit, Approve, Activate])
    ensures Replay(history) == Deprecated ==> EndsWith(history, [Submit, Approve, Activate, Deactivate])
  {
    if history != [] {
      var before, last := history[..|history| - 1], history[|history| - 1].action;
      LastTwo(history);
      StatusTellsThePast(before);
      match last
      case Submit => EndsNext(history, [], Submit, [Submit]);
      case Approve => EndsNext(history, [Submit], Approve, [Submit, Approve]);
      case Reject => EndsNext(history, [Submit], Reject, [Submit, Reject]);
      case Activate => EndsNext(history, [Submit, Approve], Activate, [Submit, Approve, Activate]);
      case Deactivate => EndsNext(history, [Submit, Approve, Activate], Deactivate,
                                  [Submit, Approve, Activate, Deactivate]);
    }
  }

  lemma EndsNext(history: seq<Entry>, actions: seq<Action>, a: Action, more: seq<Action>)
    requires history != [] && history[|history| - 1].action == a && more == actions + [a]
    requires EndsWith(history[..|history| - 1], actions)
    ensures EndsWith(history, more)
  {
    var before := history[..|history| - 1];
    forall i | 0 <= i < |more| ensures history[|history| - |more| + i].action == more[i] {
      if i < |actions| {
        assert before[|before| - |actions| + i].action == actions[i];
      }
    }
  }

  /** And each action can be taken: from a new draft to deprecation, and back from review. */
  lemma PathsAreLegal(e: Entry)
    ensures var path := [Submit, Approve, Activate, Deactivate];
            Legal(seq(4, i requires 0 <= i < 4 => e.(action := path[i])))
    ensures Legal([e.(action := Submit), e.(action := Reject)])
  {
    var path := [Submit, Approve, Activate, Deactivate];
    var h := seq(4, i requires 0 <= i < 4 => e.(action := path[i]));
    assert h[..0] == [] && |h[..1]| == 1 && |h[..2]| == 2 && |h[..3]| == 3;
    assert h[..1][0] == h[0] && h[..2][1] == h[1] && h[..3][2] == h[2];
    var back := [e.(action := Submit), e.(action := Reject)];
    assert back[..0] == [] && back[..1][0] == back[0];
  }

  // ----- the workflow -----

  /** The validation an action asks for passed on the row found. */
  predicate Passes(rules: Rules, row: Row, a: Action) {
    && (a == Submit ==> rules.parses(row.detection, row.discovery) && rules.testsPass(row))
    && (a == Approve ==> rules.parses(row.detection, row.discovery))
  }

  /** The call is allowed by the gate and by the row found, up to the transaction. */
  predicate Cleared(rules: Rules, found: Result<Option<Row>, Outcome>, a: Action) {
    && rules.gateOpen && found.Ok? && found.value.Some?
    && found.value.value.status == Source(a) && Passes(rules, found.value.value, a)
  }

  /** The committed row after an action: only status, activity and approver can differ. */
  predicate Moved(before: Row, after: Row, a: Action, actor: string) {
    && after.status == Target(a)
    && after.isActive == (if a == Activate then true else if a == Deactivate then false else before.isActive)
    && after.approvedBy == (if a == Approve then Some(actor) else before.approvedBy)
    && after.(status := before.status, isActive := before.isActive, approvedBy := before.approvedBy) == before
  }

  /** Which answer a workflow call gives. */
  lemma AdvanceAnswers(rules: Rules, s: Store, id: string, a: Action, actor: string, comment: Option<string>, f: Faults)
    ensures
      var outcome := Advance(rules, s, id, a, actor, comment, f).0;
      var found := Lookup(s, id, f).0;
      && (outcome == Success <==> Cleared(rules, found, a) && !f.transaction && id in s.rows && id in s.history)
      && (outcome == GateClosed <==> !rules.gateOpen)
      && (outcome == NotFound <==> rules.gateOpen && found == Ok(None))
      && (forall status :: outcome == WrongStatus(status) <==>
            && rules.gateOpen && found.Ok? && found.value.Some?
            && found.value.value.status == status && status != Source(a))
      && (outcome == ValidationFailed <==>
            && rules.gateOpen && found.Ok? && found.value.Some?
            && found.value.value.status == Source(a) && !Passes(rules, found.value.value, a))
      && (outcome == Internal <==>
            && rules.gateOpen
            && (found.Err? || (Cleared(rules, found, a) && (f.transaction || id !in s.rows || id !in s.history))))
  {
    LookupAnswers(s, id, f);
  }

  /** What a successful workflow call changes: one row, its history, and the copies of that row. */
  lemma AdvanceEffects(rules: Rules, s: Store, id: string, a: Action, actor: string, comment: Option<string>, f: Faults)
    requires Advance(rules, s, id, a, actor, comment, f).0 == Success
    ensures
      var s' := Advance(rules, s, id, a, actor, comment, f).1;
      && id in s.rows && id in s'.rows && id in s.history && id in s'.history
      && Moved(s.rows[id], s'.rows[id], a, actor) && s'.rows - {id} == s.rows - {id}
      && s'.history[id] == s.history[id] + [Entry(a, actor, comment)] && s'.history - {id} == s.history - {id}
      && id !in s'.memory && s'.memory == s.memory - {id}
      && (f.delEntry ==> s'.list == s.list)
      && (!f.delEntry ==> id !in s'.entries && s'.list == if f.delList then s.list else None)
  {
    LookupAnswers(s, id, f);
    var s1 := Lookup(s, id, f).1;
    TransitionEffects(s1, id, a, actor, comment, f);
    assert s1.memory - {id} == s.memory - {id};
  }

  lemma TransitionEffects(s: Store, id: string, a: Action, actor: string, comment: Option<string>, f: Faults)
    requires id in s.rows && id in s.history && !f.transaction
    ensures
      var (outcome, s') := Transition(s, id, a, actor, comment, f);
      && outcome == Success && id in s'.rows && id in s'.history
      && Moved(s.rows[id], s'.rows[id], a, actor) && s'.rows - {id} == s.rows - {id}
      && s'.history[id] == s.history[id] + [Entry(a, actor, comment)] && s'.history - {id} == s.history - {id}
      && s'.memory == s.memory - {id}
      && (f.delEntry ==> s'.entries == s.entries && s'.list == s.list)
      && (!f.delEntry ==> s'.entries == s.entries - {id} && s'.list == if f.delList then s.list else None)
  {
  }

  /**
   Automatic approval succeeds exactly for a row found under review, used and confident enough, that can be approved.
   */
  lemma AutoApproveAnswers(rules: Rules, s: Store, id: string, f: Faults)
    ensures
      var found := Lookup(s, id, f).0;
      AutoApprove(rules, s, id, f).0 <==>
      && rules.gateOpen && found.Ok? && found.value.Some?
      && found.value.value.status == Review && found.value.value.sessions >= 5 && found.value.value.confidence >= 0.9
      && rules.parses(found.value.value.detection, found.value.value.discovery)
      && !f.transaction && id in s.rows && id in s.history
  {
    LookupAnswers(s, id, f);
    var s1 := Lookup(s, id, f).1;
    LookupAnswers(s1, id, f);
    AdvanceAnswers(rules, s1, id, Approve, "auto-approval-system", None, f);
    if Lookup(s, id, f).0.Ok? && Lookup(s, id, f).0.value.Some? {
      FoundAgain(s, id, f);
    }
  }

  /** A row that was found is found again, in memory. */
  lemma FoundAgain(s: Store, id: string, f: Faults)
    requires Lookup(s, id, f).0.Ok? && Lookup(s, id, f).0.value.Some?
    ensures Lookup(Lookup(s, id, f).1, id, f).0 == Lookup(s, id, f).0
  {
  }

  // ----- saving and deleting -----

  /** Saving inserts exactly the given row with an empty history, unless refused, and leaves no stale copy of it. */
  lemma SaveAnswers(rules: Rules, s: Store, row: Row, f: Faults)
    ensures
      var (outcome, s') := Save(rules, s, row, f);
      && (outcome == Success <==> rules.gateOpen && !f.transaction && row.id !in s.rows)
      && (outcome == GateClosed <==> !rules.gateOpen)
      && (outcome == Duplicate <==> rules.gateOpen && !f.transaction && row.id in s.rows)
      && (outcome == Internal <==> rules.gateOpen && f.transaction)
      && (outcome != Success ==> s' == s)
      && (outcome == Success ==>
            && s'.rows == s.rows[row.id := row] && s'.history == s.history[row.id := []]
            && s'.memory == s.memory[row.id := row]
            && (!f.delEntry ==> row.id !in s'.entries && s'.entries == s.entries - {row.id})
            && (f.delEntry && !f.set_ ==> s'.entries == s.entries[row.id := row])
            && s'.list == if f.delEntry || f.delList then s.list else None)
  {
    assert s.entries[row.id := row] - {row.id} == s.entries - {row.id};
  }

  /** Deleting removes exactly the row, its history and its copies, and says whether there was one. */
  lemma DeleteAnswers(rules: Rules, s: Store, id: string, f: Faults)
    ensures
      var (outcome, s') := Delete(rules, s, id, f);
      && (outcome == Success <==> rules.gateOpen && !f.transaction && id in s.rows)
      && (outcome == NotFound <==> rules.gateOpen && !f.transaction && id !in s.rows)
      && (outcome == GateClosed <==> !rules.gateOpen)
      && (outcome == Internal <==> rules.gateOpen && f.transaction)
      && (outcome == GateClosed || outcome == Internal ==> s' == s)
      && (outcome == Success || outcome == NotFound ==>
            && s'.rows == s.rows - {id} && s'.history == s.history - {id} && s'.memory == s.memory - {id}
            && s'.entries == (if f.delEntry then s.entries else s.entries - {id})
            && s'.list == if f.delEntry || f.delList then s.list else None)
  {
  }

  // ----- runs -----

  /** What expires or is restarted are copies, exactly those named; neither rows nor history. */
  lemma OnlyCopiesAreLost(rules: Rules, s: Store, ids: set<string>, list: bool)
    ensures
      var s' := Step(rules, s, Forget(ids, list));
      && s'.rows == s.rows && s'.history == s.history && s'.memory == s.memory
      && (forall id :: id in s'.entries <==> id in s.entries && id !in ids)
      && (forall id :: id in s'.entries ==> s'.entries[id] == s.entries[id])
      && s'.list == if list then None else s.list
    ensures
      var s' := Step(rules, s, Restart);
      && s'.rows == s.rows && s'.history == s.history && s'.entries == s.entries && s'.list == s.list
      && |s'.memory| == 0
  {
  }

  /** Saving a draft, and then the calls that a history records. */
  function Calls(row: Row, history: seq<Entry>): seq<Event> {
    [SaveDraft(row, NO_FAULTS)] +
    seq(|history|, i requires 0 <= i < |history| =>
      Workflow(row.id, history[i].action, history[i].actor, history[i].comment, NO_FAULTS))
  }

  /** The row and the history are all there is, and the row has the texts of the draft. */
  predicate Holds(s: Store, draft: Row, history: seq<Entry>) {
    && s.rows.Keys == {draft.id} && s.history == map[draft.id := history]
    && s.rows[draft.id].(status := draft.status, isActive := draft.isActive, approvedBy := draft.approvedBy) == draft
  }

  /**
   The converse of what every run keeps: a draft whose plans parse and whose tests pass can be taken through every
   legal history, so that the row ends with the status it says.
   */
  lemma {:induction false} EveryLegalHistoryRuns(rules: Rules, draft: Row, history: seq<Entry>)
    requires rules.gateOpen && rules.parses(draft.detection, draft.discovery)
    requires forall row: Row | row.id == draft.id :: rules.testsPass(row)
    requires draft.status == Draft && !draft.isActive && draft.approvedBy.None? && Legal(history)
    ensures var s := Run(rules, Calls(draft, history));
            Holds(s, draft, history) && s.rows[draft.id].status == Replay(history)
  {
    if history == [] {
      DraftIsSaved(rules, draft);
    } else {
      EveryLegalHistoryRuns(rules, draft, history[..|history| - 1]);
      CallsGoOn(rules, draft, history);
    }
  }

  lemma DraftIsSaved(rules: Rules, draft: Row)
    requires rules.gateOpen && draft.status == Draft && !draft.isActive && draft.approvedBy.None?
    ensures var s := Run(rules, Calls(draft, [])); Holds(s, draft, []) && s.rows == map[draft.id := draft]
  {
    var es := Calls(draft, []);
    assert es == [SaveDraft(draft, NO_FAULTS)] && es[..0] == [];
    SaveAnswers(rules, EMPTY, draft, NO_FAULTS);
  }

  lemma CallsGoOn(rules: Rules, draft: Row, history: seq<Entry>)
    requires rules.gateOpen && rules.parses(draft.detection, draft.discovery)
    requires forall row: Row | row.id == draft.id :: rules.testsPass(row)
    requires history != [] && Legal(history)
    requires var before := history[..|history| - 1];
             var s := Run(rules, Calls(draft, before));
             Holds(s, draft, before) && s.rows[draft.id].status == Replay(before)
    ensures var s := Run(rules, Calls(draft, history));
            Holds(s, draft, history) && s.rows[draft.id].status == Replay(history)
  {
    RunGoesOn(rules, draft, history);
    var before := history[..|history| - 1];
    RunFinds(rules, draft, before);
    GoesOn(rules, Run(rules, Calls(draft, before)), Run(rules, Calls(draft, history)), draft, history);
  }

  lemma GoesOn(rules: Rules, s: Store, s': Store, draft: Row, history: seq<Entry>)
    requires rules.gateOpen && rules.parses(draft.detection, draft.discovery)
    requires forall row: Row | row.id == draft.id :: rules.testsPass(row)
    requires history != [] && Legal(history)
    requires var before, e := history[..|history| - 1], history[|history| - 1];
             && Holds(s, draft, before) && s.rows[draft.id].status == Replay(before)
             && Lookup(s, draft.id, NO_FAULTS).0 == Ok(Some(s.rows[draft.id]))
             && s' == Advance(rules, s, draft.id, e.action, e.actor, e.comment, NO_FAULTS).1
    ensures Holds(s', draft, history) && s'.rows[draft.id].status == Replay(history)
  {
    var before, e := history[..|history| - 1], history[|history| - 1];
    LastTwo(history);
    assert before + [e] == history;
    Goes(rules, s, s', draft, before, e);
  }

  lemma RunFinds(rules: Rules, draft: Row, history: seq<Entry>)
    ensures var s := Run(rules, Calls(draft, history));
            draft.id in s.rows ==> Lookup(s, draft.id, NO_FAULTS).0 == Ok(Some(s.rows[draft.id]))
  {
    RunKeepsInv(rules, Calls(draft, history));
    LookupKeepsInv(rules, Run(rules, Calls(draft, history)), draft.id, NO_FAULTS);
  }

  lemma RunGoesOn(rules: Rules, draft: Row, history: seq<Entry>)
    requires history != []
    ensures var before, e := history[..|history| - 1], history[|history| - 1];
            Run(rules, Calls(draft, history)) ==
            Advance(rules, Run(rules, Calls(draft, before)), draft.id, e.action, e.actor, e.comment, NO_FAULTS).1
  {
    var es := Calls(draft, history);
    assert es[..|es| - 1] == Calls(draft, history[..|history| - 1]);
  }

  lemma Goes(rules: Rules, s: Store, s': Store, draft: Row, history: seq<Entry>, e: Entry)
    requires rules.gateOpen && rules.parses(draft.detection, draft.discovery)
    requires forall row: Row | row.id == draft.id :: rules.testsPass(row)
    requires Holds(s, draft, history) && s.rows[draft.id].status == Source(e.action)
    requires Lookup(s, draft.id, NO_FAULTS).0 == Ok(Some(s.rows[draft.id]))
    requires s' == Advance(rules, s, draft.id, e.action, e.actor, e.comment, NO_FAULTS).1
    ensures Holds(s', draft, history + [e]) && s'.rows[draft.id].status == Target(e.action)
  {
    AdvanceAnswers(rules, s, draft.id, e.action, e.actor, e.comment, NO_FAULTS);
    AdvanceEffects(rules, s, draft.id, e.action, e.actor, e.comment, NO_FAULTS);
    OnlyOne(s.rows, s'.rows, draft.id);
    OnlyOne(s.history, s'.history, draft.id);
  }

  lemma OnlyOne<T>(before: map<string, T>, after: map<string, T>, id: string)
    requires before.Keys == {id} && id in after && after - {id} == before - {id}
    ensures after == map[id := after[id]]
  {
    assert after.Keys - {id} == (after - {id}).Keys == (before - {id}).Keys == {};
    assert after.Keys == {id};
  }
}
