/**
 The lifecycle of discovery patterns: database rows with their review history, and the three places a row is
 cached in (process memory, a Redis entry, the Redis list of active patterns).
 */
module PatternLifecycle {
  import opened Wrappers

  datatype Status = Draft | Review | Approved | Active | Deprecated

  datatype Action = Submit | Approve | Reject | Activate | Deactivate

  datatype Row = Row(id: string, detection: string, discovery: string, status: Status, isActive: bool,
                     approvedBy: Option<string>, sessions: nat, confidence: real)

  datatype Entry = Entry(action: Action, actor: string, comment: Option<string>)

  datatype Store = Store(rows: map<string, Row>, history: map<string, seq<Entry>>,
                         memory: map<string, Row>, entries: map<string, Row>, list: Option<seq<Row>>)

  const EMPTY := Store(map[], map[], map[], map[], None)

  /** Whether platform authority exists, and the validator's two verdicts. */
  datatype Rules = Rules(gateOpen: bool, parses: (string, string) -> bool, testsPass: Row -> bool)

  /** What fails during one call: the database read, the transaction, and each kind of Redis access. */
  datatype Faults = Faults(read: bool, transaction: bool, get: bool, set_: bool, delEntry: bool, delList: bool)

  const NO_FAULTS := Faults(false, false, false, false, false, false)

  datatype Outcome =
    Success | GateClosed | NotFound | WrongStatus(status: Status) | ValidationFailed | Internal | Duplicate

  function Source(a: Action): Status {
    match a
    case Submit => Draft
    case Approve => Review
    case Reject => Review
    case Activate => Approved
    case Deactivate => Active
  }

  function Target(a: Action): Status {
    match a
    case Submit => Review
    case Approve => Approved
    case Reject => Draft
    case Activate => Active
    case Deactivate => Deprecated
  }

  /** The update each workflow method sends. */
  function Updated(row: Row, a: Action, actor: string): Row {
    match a
    case Submit => row.(status := Review)
    case Approve => row.(status := Approved, approvedBy := Some(actor))
    case Reject => row.(status := Draft)
    case Activate => row.(status := Active, isActive := true)
    case Deactivate => row.(status := Deprecated, isActive := false)
  }

  predicate Parses(rules: Rules, row: Row) {
    rules.parses(row.detection, row.discovery)
  }

  /** Full validation before review, plan validation before approval, none otherwise. */
  predicate Validates(rules: Rules, row: Row, a: Action) {
    match a
    case Submit => Parses(rules, row) && rules.testsPass(row)
    case Approve => Parses(rules, row)
    case _ => true
  }

  // ----- storage -----

  /** `getPattern`: memory, then Redis, then the database; a row found on the way is remembered. */
  function Lookup(s: Store, id: string, f: Faults): (Result<Option<Row>, Outcome>, Store) {
    if id in s.memory then (Ok(Some(s.memory[id])), s)
    else if !f.get && id in s.entries then (Ok(Some(s.entries[id])), s.(memory := s.memory[id := s.entries[id]]))
    else if f.read then (Err(Internal), s)
    else if id !in s.rows then (Ok(None), s)
    else
      var row := s.rows[id];
      (Ok(Some(row)),
       s.(memory := s.memory[id := row], entries := if f.set_ then s.entries else s.entries[row.id := row]))
  }

  /** `invalidatePattern`: the list is deleted only after the entry was. */
  function Invalidate(s: Store, id: string, f: Faults): Store {
    if f.delEntry then s
    else if f.delList then s.(entries := s.entries - {id})
    else s.(entries := s.entries - {id}, list := None)
  }

  /** `transitionPattern`: update and audit row commit together, and only then the caches are invalidated. */
  function Transition(s: Store, id: string, a: Action, actor: string, comment: Option<string>, f: Faults)
    : (Outcome, Store)
  {
    if f.transaction || id !in s.rows || id !in s.history then (Internal, s)
    else
      var committed := s.(rows := s.rows[id := Updated(s.rows[id], a, actor)],
                          history := s.history[id := s.history[id] + [Entry(a, actor, comment)]]);
      (Success, Invalidate(committed.(memory := committed.memory - {id}), id, f))
  }

  /** The five workflow methods after the lookup; they differ in the expected status, the validation and the update. */
  function Decide(rules: Rules, s: Store, found: Result<Option<Row>, Outcome>, id: string, a: Action, actor: string,
                  comment: Option<string>, f: Faults)
    : (Outcome, Store)
  {
    if found.Err? then (Internal, s)
    else if found.value.None? then (NotFound, s)
    else if found.value.value.status != Source(a) then (WrongStatus(found.value.value.status), s)
    else if !Validates(rules, found.value.value, a) then (ValidationFailed, s)
    else Transition(s, id, a, actor, comment, f)
  }

  function Advance(rules: Rules, s: Store, id: string, a: Action, actor: string, comment: Option<string>, f: Faults)
    : (Outcome, Store)
  {
    if !rules.gateOpen then (GateClosed, s)
    else
      var (found, s1) := Lookup(s, id, f);
      Decide(rules, s1, found, id, a, actor, comment, f)
  }

  predicate Eligible(rules: Rules, row: Row) {
    row.status == Review && row.sessions >= 5 && row.confidence >= 0.9 && Parses(rules, row)
  }

  /** `autoApproveIfEligible`. */
  function AutoApprove(rules: Rules, s: Store, id: string, f: Faults): (bool, Store) {
    if !rules.gateOpen then (false, s)
    else
      var (found, s1) := Lookup(s, id, f);
      if found.Ok? && found.value.Some? && Eligible(rules, found.value.value) then
        var (outcome, s2) := Advance(rules, s1, id, Approve, "auto-approval-system", None, f);
        (outcome == Success, s2)
      else (false, s1)
  }

  /** `savePattern`: the row is put into both caches, then entry and list are invalidated. */
  function Save(rules: Rules, s: Store, row: Row, f: Faults): (Outcome, Store) {
    if !rules.gateOpen then (GateClosed, s)
    else if f.transaction then (Internal, s)
    else if row.id in s.rows then (Duplicate, s)
    else
      var saved := s.(rows := s.rows[row.id := row], history := s.history[row.id := []],
                      memory := s.memory[row.id := row],
                      entries := if f.set_ then s.entries else s.entries[row.id := row]);
      (Success, Invalidate(saved, row.id, f))
  }

  /** `deletePattern`: the review history goes with the row. */
  function Delete(rules: Rules, s: Store, id: string, f: Faults): (Outcome, Store) {
    if !rules.gateOpen then (GateClosed, s)
    else if f.transaction then (Internal, s)
    else
      var deleted := s.(rows := s.rows - {id}, history := s.history - {id}, memory := s.memory - {id});
      (if id in s.rows then Success else NotFound, Invalidate(deleted, id, f))
  }

  /** The active rows, each once, in some order. */
  ghost predicate IsActiveList(list: seq<Row>, rows: map<string, Row>) {
    && (forall i :: 0 <= i < |list| ==> list[i].id in rows && rows[list[i].id] == list[i] && list[i].isActive)
    && (forall i, j :: 0 <= i < j < |list| ==> list[i].id != list[j].id)
    && (forall id :: id in rows && rows[id].isActive ==> exists i :: 0 <= i < |list| && list[i].id == id)
  }

  function ById(list: seq<Row>): map<string, Row> {
    if list == [] then map[]
    else
      var last := list[|list| - 1];
      ById(list[..|list| - 1])[last.id := last]
  }

  /**
   `loadPatterns`: the Redis list unless the caller asks for the database; `active` is the order the query returns.
   */
  function Load(s: Store, authoritative: bool, active: seq<Row>, f: Faults): (Result<seq<Row>, Outcome>, Store) {
    if !authoritative && !f.get && s.list.Some? then (Ok(s.list.value), s.(memory := ById(s.list.value)))
    else if f.read then (Err(Internal), s)
    else (Ok(active), s.(memory := ById(active), list := if f.set_ then s.list else Some(active)))
  }

  // ----- what every run keeps -----

  /** The status a review history leads to, starting from a draft. */
  function Replay(history: seq<Entry>): Status {
    if history == [] then Draft else Target(history[|history| - 1].action)
  }

  /** The history is a path of the lifecycle: every action was taken from its own source status. */
  ghost predicate Legal(history: seq<Entry>) {
    forall k :: 0 <= k < |history| ==> Source(history[k].action) == Replay(history[..k])
  }

  /** The actor of the latest approval. */
  function Approver(history: seq<Entry>): Option<string> {
    if history == [] then None
    else
      var last := history[|history| - 1];
      if last.action == Approve then Some(last.actor) else Approver(history[..|history| - 1])
  }

  ghost predicate RowInv(rules: Rules, row: Row, history: seq<Entry>) {
    && Legal(history)
    && row.status == Replay(history)
    && (row.isActive <==> row.status == Active)
    && row.approvedBy == Approver(history)
    && (row.status in {Approved, Active, Deprecated} ==> row.approvedBy.Some?)
    && (row.status != Draft ==> Parses(rules, row))
  }

  ghost predicate Mirrors(cache: map<string, Row>, rows: map<string, Row>) {
    forall id :: id in cache ==> id in rows && cache[id] == rows[id]
  }

  /** Every cached copy is absent or equal to the committed row. */
  ghost predicate Coherent(s: Store) {
    Mirrors(s.memory, s.rows) && Mirrors(s.entries, s.rows) && (s.list.Some? ==> IsActiveList(s.list.value, s.rows))
  }

  ghost predicate RowsInv(rules: Rules, s: Store) {
    && s.history.Keys == s.rows.Keys
    && (forall id :: id in s.rows ==> s.rows[id].id == id && RowInv(rules, s.rows[id], s.history[id]))
  }

  ghost predicate Inv(rules: Rules, s: Store) {
    RowsInv(rules, s) && Coherent(s)
  }

  lemma LookupKeepsInv(rules: Rules, s: Store, id: string, f: Faults)
    requires Inv(rules, s)
    ensures
      var (found, s') := Lookup(s, id, f);
      && Inv(rules, s') && s'.rows == s.rows && s'.history == s.history
      && (found.Ok? ==> found.value == if id in s.rows then Some(s.rows[id]) else None)
  {
  }

  /** A legal action extends the history and its replay together. */
  lemma UpdateKeepsRow(rules: Rules, row: Row, history: seq<Entry>, e: Entry)
    requires RowInv(rules, row, history) && row.status == Source(e.action) && Validates(rules, row, e.action)
    ensures RowInv(rules, Updated(row, e.action, e.actor), history + [e])
  {
    var after := history + [e];
    assert after[..|history|] == history;
    forall k | 0 <= k < |after| ensures Source(after[k].action) == Replay(after[..k]) {
      if k < |history| {
        assert after[..k] == history[..k];
      }
    }
  }

  /** The active rows seen by a list change only when a row's activity does. */
  lemma ListSurvives(list: seq<Row>, rows: map<string, Row>, id: string, row: Row)
    requires IsActiveList(list, rows) && row.id == id && !row.isActive
    requires id in rows ==> rows[id].id == id && !rows[id].isActive
    ensures IsActiveList(list, rows[id := row])
  {
  }

  lemma ActivityStalesList(list: seq<Row>, rows: map<string, Row>, id: string, row: Row)
    requires IsActiveList(list, rows) && id in rows && rows[id].id == id && rows[id].isActive != row.isActive
    ensures !IsActiveList(list, rows[id := row])
  {
    var after := rows[id := row];
    assert id in after && after[id] == row;
    if rows[id].isActive {
      var i :| 0 <= i < |list| && list[i].id == id;
      assert list[i] == rows[id];
    } else {
      assert forall i | 0 <= i < |list| :: list[i].id != id;
    }
  }

  /**
   The exact price of a failed invalidation. After a committed transition the caches agree with the database if and
   only if the stale entry and the stale list were deleted, or there was nothing stale to delete.
   */
  lemma CoherentIffInvalidated(rules: Rules, s: Store, id: string, a: Action, actor: string, comment: Option<string>,
                               f: Faults)
    requires Inv(rules, s) && id in s.rows && s.rows[id].status == Source(a) && !f.transaction
    ensures
      var (_, s') := Transition(s, id, a, actor, comment, f);
      Coherent(s') <==>
        && (f.delEntry ==> id !in s.entries)
        && (f.delEntry || f.delList ==> s.list.None? || (a != Activate && a != Deactivate))
  {
    var (outcome, s') := Transition(s, id, a, actor, comment, f);
    var row := Updated(s.rows[id], a, actor);
    assert RowInv(rules, s.rows[id], s.history[id]);
    assert s'.rows == s.rows[id := row] && row != s.rows[id];
    assert Mirrors(s'.memory, s'.rows);
    assert Mirrors(s'.entries, s'.rows) <==> id !in s'.entries;
    if s.list.Some? {
      if a == Activate || a == Deactivate {
        ActivityStalesList(s.list.value, s.rows, id, row);
      } else {
        ListSurvives(s.list.value, s.rows, id, row);
      }
    }
  }

  /** The committed row allows the action: it has the expected status, and a submitted draft parses. */
  predicate Allows(rules: Rules, row: Row, a: Action) {
    row.status == Source(a) && (a == Submit ==> Parses(rules, row))
  }

  /** Rows and audit trail survive a committed transition if and only if the committed row allows it. */
  lemma TransitionKeepsRowsIff(rules: Rules, s: Store, id: string, a: Action, actor: string, comment: Option<string>,
                               f: Faults)
    requires RowsInv(rules, s) && id in s.rows && !f.transaction
    ensures RowsInv(rules, Transition(s, id, a, actor, comment, f).1) <==> Allows(rules, s.rows[id], a)
  {
    var row, history, e := s.rows[id], s.history[id], Entry(a, actor, comment);
    RowSurvivesIff(rules, row, history, e);
    TransitionUpdates(s, id, a, actor, comment, f);
    OneRowDecides(rules, s, Transition(s, id, a, actor, comment, f).1, id, Updated(row, a, actor), history + [e]);
  }

  lemma TransitionUpdates(s: Store, id: string, a: Action, actor: string, comment: Option<string>, f: Faults)
    requires id in s.rows && id in s.history && !f.transaction
    ensures
      var s' := Transition(s, id, a, actor, comment, f).1;
      && s'.rows == s.rows[id := Updated(s.rows[id], a, actor)]
      && s'.history == s.history[id := s.history[id] + [Entry(a, actor, comment)]]
  {
  }

  lemma OneRowDecides(rules: Rules, s: Store, t: Store, id: string, row: Row, history: seq<Entry>)
    requires RowsInv(rules, s) && id in s.rows && row.id == id
    requires t.rows == s.rows[id := row] && t.history == s.history[id := history]
    ensures RowsInv(rules, t) <==> RowInv(rules, row, history)
  {
    if RowsInv(rules, t) {
      assert t.rows[id] == row && t.history[id] == history;
    } else if RowInv(rules, row, history) {
      forall i | i in t.rows ensures t.rows[i].id == i && RowInv(rules, t.rows[i], t.history[i]) {
        assert i != id ==> i in s.rows && t.rows[i] == s.rows[i] && t.history[i] == s.history[i];
      }
    }
  }

  lemma RowSurvivesIff(rules: Rules, row: Row, history: seq<Entry>, e: Entry)
    requires RowInv(rules, row, history)
    ensures RowInv(rules, Updated(row, e.action, e.actor), history + [e]) <==> Allows(rules, row, e.action)
  {
    var after := history + [e];
    assert after[..|history|] == history && after[|history|] == e;
    forall k | 0 <= k < |history| ensures after[k] == history[k] && after[..k] == history[..k] {
    }
    if Allows(rules, row, e.action) {
      forall k | 0 <= k < |after| ensures Source(after[k].action) == Replay(after[..k]) {
        assert k < |history| ==> after[..k] == history[..k];
      }
    } else if row.status != Source(e.action) {
      assert Source(after[|history|].action) != Replay(after[..|history|]);
    }
  }

  /** The call goes on to the transaction: the row it found has the expected status and passes validation. */
  predicate GoesOn(rules: Rules, found: Result<Option<Row>, Outcome>, a: Action) {
    found.Ok? && found.value.Some? && found.value.value.status == Source(a) && Validates(rules, found.value.value, a)
  }

  lemma DecideKeepsRowsIff(rules: Rules, s: Store, found: Result<Option<Row>, Outcome>, id: string, a: Action,
                           actor: string,
                           comment: Option<string>, f: Faults)
    requires RowsInv(rules, s)
    ensures RowsInv(rules, Decide(rules, s, found, id, a, actor, comment, f).1) <==>
            !(GoesOn(rules, found, a) && !f.transaction && id in s.rows && !Allows(rules, s.rows[id], a))
  {
    if GoesOn(rules, found, a) && !f.transaction && id in s.rows {
      TransitionKeepsRowsIff(rules, s, id, a, actor, comment, f);
    }
  }

  /**
   The exact price of a stale copy. Whatever the caches hold, a workflow call breaks rows and audit trail if and only if
   the row it finds lets it go on to a transaction that succeeds while the committed row does not allow the action.
   */
  lemma AdvanceKeepsRowsIff(rules: Rules, s: Store, id: string, a: Action, actor: string, comment: Option<string>,
                            f: Faults)
    requires RowsInv(rules, s) && rules.gateOpen
    ensures RowsInv(rules, Advance(rules, s, id, a, actor, comment, f).1) <==>
            !(GoesOn(rules, Lookup(s, id, f).0, a) && !f.transaction && id in s.rows && !Allows(rules, s.rows[id], a))
  {
    LookupKeepsRows(rules, s, id, f);
    var (found, s1) := Lookup(s, id, f);
    DecideKeepsRowsIff(rules, s1, found, id, a, actor, comment, f);
  }

  lemma LookupKeepsRows(rules: Rules, s: Store, id: string, f: Faults)
    ensures var s' := Lookup(s, id, f).1; s'.rows == s.rows && s'.history == s.history
    ensures RowsInv(rules, Lookup(s, id, f).1) <==> RowsInv(rules, s)
  {
  }

  predicate RedisDeletes(f: Faults) {
    !f.delEntry && !f.delList
  }

  lemma TransitionKeepsInv(rules: Rules, s: Store, id: string, a: Action, actor: string, comment: Option<string>,
                           f: Faults)
    requires Inv(rules, s) && RedisDeletes(f)
    requires id in s.rows && s.rows[id].status == Source(a) && Validates(rules, s.rows[id], a)
    ensures Inv(rules, Transition(s, id, a, actor, comment, f).1)
  {
    if !f.transaction {
      UpdateKeepsRow(rules, s.rows[id], s.history[id], Entry(a, actor, comment));
      CoherentIffInvalidated(rules, s, id, a, actor, comment, f);
    }
  }

  /** What the lookup must have answered: the committed row, unless the database failed. */
  predicate Faithful(s: Store, found: Result<Option<Row>, Outcome>, id: string) {
    found.Ok? ==> found.value == if id in s.rows then Some(s.rows[id]) else None
  }

  /** An answer of the workflow and what it did to rows and history: everything on success, nothing otherwise. */
  predicate Told(rules: Rules, s: Store, outcome: Outcome, s': Store, id: string, a: Action, actor: string,
                 comment: Option<string>) {
    && (outcome == Success ==>
          && id in s.rows && id in s.history && s.rows[id].status == Source(a) && Validates(rules, s.rows[id], a)
          && s'.rows == s.rows[id := Updated(s.rows[id], a, actor)]
          && s'.history == s.history[id := s.history[id] + [Entry(a, actor, comment)]])
    && (outcome != Success ==> s'.rows == s.rows && s'.history == s.history)
  }

  lemma DecideKeepsInv(rules: Rules, s: Store, found: Result<Option<Row>, Outcome>, id: string, a: Action,
                       actor: string, comment: Option<string>, f: Faults)
    requires Inv(rules, s) && RedisDeletes(f) && Faithful(s, found, id)
    ensures Inv(rules, Decide(rules, s, found, id, a, actor, comment, f).1)
  {
    if found.Ok? && found.value.Some? && found.value.value.status == Source(a)
        && Validates(rules, found.value.value, a) {
      TransitionKeepsInv(rules, s, id, a, actor, comment, f);
    }
  }

  lemma DecideOutcome(rules: Rules, s: Store, found: Result<Option<Row>, Outcome>, id: string, a: Action, actor: string,
                      comment: Option<string>, f: Faults)
    requires Faithful(s, found, id)
    ensures
      var (outcome, s') := Decide(rules, s, found, id, a, actor, comment, f);
      Told(rules, s, outcome, s', id, a, actor, comment) && outcome != GateClosed
  {
  }

  /**
   A workflow call keeps the invariant and tells what it did; only a closed gate answers so, and then nothing changed.
   */
  lemma AdvanceKeepsInv(rules: Rules, s: Store, id: string, a: Action, actor: string, comment: Option<string>,
                        f: Faults)
    requires Inv(rules, s) && RedisDeletes(f)
    ensures
      var (outcome, s') := Advance(rules, s, id, a, actor, comment, f);
      && Inv(rules, s') && Told(rules, s, outcome, s', id, a, actor, comment)
      && (outcome == GateClosed <==> !rules.gateOpen) && (outcome == GateClosed ==> s' == s)
  {
    if rules.gateOpen {
      var (found, s1) := Lookup(s, id, f);
      LookupKeepsInv(rules, s, id, f);
      DecideKeepsInv(rules, s1, found, id, a, actor, comment, f);
      DecideOutcome(rules, s1, found, id, a, actor, comment, f);
    }
  }

  lemma AutoApproveKeepsInv(rules: Rules, s: Store, id: string, f: Faults)
    requires Inv(rules, s) && RedisDeletes(f)
    ensures
      var (approved, s') := AutoApprove(rules, s, id, f);
      && Inv(rules, s')
      && (approved ==>
            && id in s.rows && Eligible(rules, s.rows[id])
            && s'.rows == s.rows[id := Updated(s.rows[id], Approve, "auto-approval-system")])
      && (!approved ==> s'.rows == s.rows && s'.history == s.history)
      && (!rules.gateOpen ==> s' == s)
  {
    if rules.gateOpen {
      LookupKeepsInv(rules, s, id, f);
      var (found, s1) := Lookup(s, id, f);
      AdvanceKeepsInv(rules, s1, id, Approve, "auto-approval-system", None, f);
    }
  }

  lemma SaveKeepsInv(rules: Rules, s: Store, row: Row, f: Faults)
    requires Inv(rules, s) && RedisDeletes(f) && row.status == Draft && !row.isActive && row.approvedBy.None?
    ensures Inv(rules, Save(rules, s, row, f).1)
  {
    var (outcome, s') := Save(rules, s, row, f);
    if outcome == Success {
      assert Mirrors(s'.memory, s'.rows) && Mirrors(s'.entries, s'.rows) && s'.list.None?;
      assert RowInv(rules, row, []);
      assert s'.rows == s.rows[row.id := row] && s'.history == s.history[row.id := []];
      assert RowsInv(rules, s');
    }
  }

  lemma DeleteKeepsInv(rules: Rules, s: Store, id: string, f: Faults)
    requires Inv(rules, s) && RedisDeletes(f)
    ensures Inv(rules, Delete(rules, s, id, f).1)
  {
  }

  lemma {:induction false} ByIdMirrors(list: seq<Row>, rows: map<string, Row>)
    requires forall i :: 0 <= i < |list| ==> list[i].id in rows && rows[list[i].id] == list[i]
    ensures Mirrors(ById(list), rows)
  {
    if list != [] {
      ByIdMirrors(list[..|list| - 1], rows);
    }
  }

  lemma LoadKeepsInv(rules: Rules, s: Store, authoritative: bool, active: seq<Row>, f: Faults)
    requires Inv(rules, s) && IsActiveList(active, s.rows)
    ensures
      var (answer, s') := Load(s, authoritative, active, f);
      && Inv(rules, s') && s'.rows == s.rows && s'.history == s.history
      && (answer.Ok? ==> IsActiveList(answer.value, s.rows))
  {
    ByIdMirrors(active, s.rows);
    if s.list.Some? {
      ByIdMirrors(s.list.value, s.rows);
    }
  }

  datatype Event =
    | Workflow(id: string, a: Action, actor: string, comment: Option<string>, f: Faults)
    | AutoApproval(id: string, f: Faults)
    | SaveDraft(row: Row, f: Faults)
    | DeleteRow(id: string, f: Faults)
    | GetRow(id: string, f: Faults)
    | LoadActive(authoritative: bool, active: seq<Row>, f: Faults)
    | Forget(ids: set<string>, list: bool)
    | Restart

  /** Events of a run: only inactive drafts are saved, and a query for the active rows returns them. */
  ghost predicate Admissible(s: Store, e: Event) {
    match e
    case SaveDraft(row, _) => row.status == Draft && !row.isActive && row.approvedBy.None?
    case LoadActive(_, active, _) => IsActiveList(active, s.rows)
    case _ => true
  }

  function Step(rules: Rules, s: Store, e: Event): Store {
    match e
    case Workflow(id, a, actor, comment, f) => Advance(rules, s, id, a, actor, comment, f).1
    case AutoApproval(id, f) => AutoApprove(rules, s, id, f).1
    case SaveDraft(row, f) => Save(rules, s, row, f).1
    case DeleteRow(id, f) => Delete(rules, s, id, f).1
    case GetRow(id, f) => Lookup(s, id, f).1
    case LoadActive(authoritative, active, f) => Load(s, authoritative, active, f).1
    case Forget(ids, list) => s.(entries := s.entries - ids, list := if list then None else s.list)
    case Restart => s.(memory := map[])
  }

  ghost function Run(rules: Rules, es: seq<Event>): Store {
    if es == [] then EMPTY
    else
      var s := Run(rules, es[..|es| - 1]);
      if Admissible(s, es[|es| - 1]) then Step(rules, s, es[|es| - 1]) else s
  }

  predicate EventDeletes(e: Event) {
    (e.Forget? || e.Restart?) || RedisDeletes(e.f)
  }

  /**
   Lifecycle, audit trail and caches agree after every run in which Redis deletes what it is told to delete, whatever
   else fails, expires or restarts in between.
   */
  lemma {:induction false} RunKeepsInv(rules: Rules, es: seq<Event>)
    requires forall i :: 0 <= i < |es| ==> EventDeletes(es[i])
    ensures Inv(rules, Run(rules, es))
  {
    if es != [] {
      var s, e := Run(rules, es[..|es| - 1]), es[|es| - 1];
      RunKeepsInv(rules, es[..|es| - 1]);
      if Admissible(s, e) {
        match e
        case Workflow(id, a, actor, comment, f) => AdvanceKeepsInv(rules, s, id, a, actor, comment, f);
        case AutoApproval(id, f) => AutoApproveKeepsInv(rules, s, id, f);
        case SaveDraft(row, f) => SaveKeepsInv(rules, s, row, f);
        case DeleteRow(id, f) => DeleteKeepsInv(rules, s, id, f);
        case GetRow(id, f) => LookupKeepsInv(rules, s, id, f);
        case LoadActive(authoritative, active, f) => LoadKeepsInv(rules, s, authoritative, active, f);
        case Forget(_, _) =>
        case Restart =>
      }
    }
  }

  /** With the shipped gate no mutator changes anything, cached copies included. */
  lemma ClosedGateChangesNothing(rules: Rules, s: Store, e: Event)
    requires !rules.gateOpen && (e.Workflow? || e.AutoApproval? || e.SaveDraft? || e.DeleteRow?)
    ensures Step(rules, s, e) == s
  {
  }

  const REDIS_DOWN := Faults(false, false, true, true, true, true)

  /**
   Without the deletions the lifecycle itself breaks, from every consistent state with a reviewed row cached in Redis:
   an outage spanning an approval and an activation leaves that copy behind, and once Redis is back a rejection takes
   it for the truth. The pattern becomes a draft that is still active.
   */
  lemma LostDeletionLeavesActiveDraft(rules: Rules, s: Store, id: string)
    requires Inv(rules, s) && rules.gateOpen && id in s.rows && s.rows[id].status == Review && id in s.entries
    ensures
      var s3 := Advance(rules, Outage(rules, s, id), id, Reject, "c", None, NO_FAULTS).1;
      id in s3.rows && s3.rows[id].status == Draft && s3.rows[id].isActive
  {
    assert RowInv(rules, s.rows[id], s.history[id]);
    OutageLeavesCopy(rules, s, id);
    RejectionTrustsCopy(rules, Outage(rules, s, id), id, "c");
  }

  /** The state after an approval and an activation with Redis down. */
  function Outage(rules: Rules, s: Store, id: string): Store {
    var s1 := Advance(rules, s, id, Approve, "b", None, REDIS_DOWN).1;
    Advance(rules, s1, id, Activate, "b", None, REDIS_DOWN).1
  }

  lemma OutageLeavesCopy(rules: Rules, s: Store, id: string)
    requires rules.gateOpen && id in s.rows && id in s.history && (id in s.memory ==> s.memory[id] == s.rows[id])
    requires id in s.entries && s.entries[id] == s.rows[id] && s.rows[id].status == Review && Parses(rules, s.rows[id])
    ensures var s2 := Outage(rules, s, id);
            && id in s2.rows && s2.rows[id].isActive && id in s2.history && id !in s2.memory
            && id in s2.entries && s2.entries[id].status == Review
  {
    OutageKeepsEntries(rules, s, id, Approve, "b");
    OutageKeepsEntries(rules, Advance(rules, s, id, Approve, "b", None, REDIS_DOWN).1, id, Activate, "b");
  }

  lemma RejectionTrustsCopy(rules: Rules, s: Store, id: string, actor: string)
    requires rules.gateOpen && id in s.rows && id in s.history && id !in s.memory && id in s.entries
             && s.entries[id].status == Review
    ensures Advance(rules, s, id, Reject, actor, None, NO_FAULTS).1.rows ==
            s.rows[id := Updated(s.rows[id], Reject, actor)]
  {
    assert Lookup(s, id, NO_FAULTS).0 == Ok(Some(s.entries[id]));
  }

  lemma OutageKeepsEntries(rules: Rules, s: Store, id: string, a: Action, actor: string)
    requires rules.gateOpen && id in s.rows && id in s.history && (id in s.memory ==> s.memory[id] == s.rows[id])
    requires s.rows[id].status == Source(a) && Validates(rules, s.rows[id], a)
    ensures
      var s' := Advance(rules, s, id, a, actor, None, REDIS_DOWN).1;
      && s'.rows == s.rows[id := Updated(s.rows[id], a, actor)] && s'.history.Keys == s.history.Keys
      && id !in s'.memory && s'.entries == s.entries
  {
  }
}
