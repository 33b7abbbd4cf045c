/**
 The services over the pattern library, statement by statement, proved against the functions of `PatternLifecycle`:
 the Redis cache, the storage service with its process memory, and the workflow.
 */
module PatternStorage {
  import opened Wrappers
  import opened PatternLifecycle

  /** The two tables. */
  class Database {
    var rows: map<string, Row>
    var history: map<string, seq<Entry>>

    constructor ()
      ensures rows == map[] && history == map[]
    {
      rows, history := map[], map[];
    }
  }

  /** `PatternCacheService`: errors are swallowed, so a failed access is a miss or does nothing. */
  class PatternCache {
    var entries: map<string, Row>
    var list: Option<seq<Row>>

    constructor ()
      ensures entries == map[] && list.None?
    {
      entries, list := map[], None;
    }

    method GetPattern(id: string, f: Faults) returns (row: Option<Row>)
      ensures row == if !f.get && id in entries then Some(entries[id]) else None
    {
      if f.get || id !in entries {
        return None;
      }
      row := Some(entries[id]);
    }

    method SetPattern(row: Row, f: Faults)
      modifies this`entries
      ensures entries == if f.set_ then old(entries) else old(entries)[row.id := row]
    {
      if !f.set_ {
        entries := entries[row.id := row];
      }
    }

    method GetActivePatterns(f: Faults) returns (active: Option<seq<Row>>)
      ensures active == if f.get then None else list
    {
      active := if f.get then None else list;
    }

    method SetActivePatterns(active: seq<Row>, f: Faults)
      modifies this`list
      ensures list == if f.set_ then old(list) else Some(active)
    {
      if !f.set_ {
        list := Some(active);
      }
    }

    method InvalidatePattern(id: string, f: Faults)
      modifies this
      ensures entries == if f.delEntry then old(entries) else old(entries) - {id}
      ensures list == if f.delEntry || f.delList then old(list) else None
    {
      if f.delEntry {
        return;
      }
      entries := entries - {id};
      if !f.delList {
        list := None;
      }
    }
  }

  class Storage {
    const db: Database
    const cache: PatternCache
    var memory: map<string, Row>

    constructor (db: Database, cache: PatternCache)
      ensures this.db == db && this.cache == cache && memory == map[]
    {
      this.db, this.cache, memory := db, cache, map[];
    }

    function Value(): Store
      reads this, db, cache
    {
      Store(db.rows, db.history, memory, cache.entries, cache.list)
    }

    method GetPattern(id: string, f: Faults) returns (found: Result<Option<Row>, Outcome>)
      modifies this, cache
      ensures (found, Value()) == Lookup(old(Value()), id, f)
    {
      if id in memory {
        return Ok(Some(memory[id]));
      }
      var cached := cache.GetPattern(id, f);
      if cached.Some? {
        memory := memory[id := cached.value];
        return Ok(cached);
      }
      if f.read {
        return Err(Internal);
      }
      if id !in db.rows {
        return Ok(None);
      }
      var row := db.rows[id];
      cache.SetPattern(row, f);
      memory := memory[id := row];
      found := Ok(Some(row));
    }

    /** The memory map is refilled from a list of rows. */
    method Refill(active: seq<Row>)
      modifies this
      ensures memory == ById(active)
    {
      memory := map[];
      var i := 0;
      while i < |active|
        invariant 0 <= i <= |active| && memory == ById(active[..i])
      {
        assert active[..i + 1][..i] == active[..i];
        memory := memory[active[i].id := active[i]];
        i := i + 1;
      }
      assert active[..|active|] == active;
    }

    /** `fromDatabase` is the order in which the query returns the active rows. */
    method LoadPatterns(authoritative: bool, fromDatabase: seq<Row>, f: Faults)
        returns (active: Result<seq<Row>, Outcome>)
      modifies this, cache
      ensures (active, Value()) == Load(old(Value()), authoritative, fromDatabase, f)
    {
      if !authoritative {
        var cached := cache.GetActivePatterns(f);
        if cached.Some? {
          Refill(cached.value);
          return Ok(cached.value);
        }
      }
      if f.read {
        return Err(Internal);
      }
      Refill(fromDatabase);
      cache.SetActivePatterns(fromDatabase, f);
      active := Ok(fromDatabase);
    }

    /** The transaction writes both tables or neither; the caches are touched only after its commit. */
    method TransitionPattern(id: string, a: Action, actor: string, comment: Option<string>, f: Faults)
      returns (outcome: Outcome)
      modifies this, db, cache
      ensures (outcome, Value()) == Transition(old(Value()), id, a, actor, comment, f)
    {
      if f.transaction || id !in db.rows || id !in db.history {
        return Internal;
      }
      db.rows := db.rows[id := Updated(db.rows[id], a, actor)];
      db.history := db.history[id := db.history[id] + [Entry(a, actor, comment)]];
      memory := memory - {id};
      cache.InvalidatePattern(id, f);
      outcome := Success;
    }

    method SavePattern(rules: Rules, row: Row, f: Faults) returns (outcome: Outcome)
      modifies this, db, cache
      ensures (outcome, Value()) == Save(rules, old(Value()), row, f)
    {
      if !rules.gateOpen {
        return GateClosed;
      }
      if f.transaction {
        return Internal;
      }
      if row.id in db.rows {
        return Duplicate;
      }
      db.rows := db.rows[row.id := row];
      db.history := db.history[row.id := []];
      memory := memory[row.id := row];
      cache.SetPattern(row, f);
      cache.InvalidatePattern(row.id, f);
      outcome := Success;
    }

    method DeletePattern(rules: Rules, id: string, f: Faults) returns (outcome: Outcome)
      modifies this, db, cache
      ensures (outcome, Value()) == Delete(rules, old(Value()), id, f)
    {
      if !rules.gateOpen {
        return GateClosed;
      }
      if f.transaction {
        return Internal;
      }
      var deleted := id in db.rows;
      db.rows := db.rows - {id};
      db.history := db.history - {id};
      memory := memory - {id};
      cache.InvalidatePattern(id, f);
      outcome := if deleted then Success else NotFound;
    }
  }

  class Workflow {
    const storage: Storage
    const rules: Rules

    constructor (storage: Storage, rules: Rules)
      ensures this.storage == storage && this.rules == rules
    {
      this.storage, this.rules := storage, rules;
    }

    /** Submit, approve, reject, activate or deactivate. */
    method Perform(id: string, a: Action, actor: string, comment: Option<string>, f: Faults) returns (outcome: Outcome)
      modifies storage, storage.db, storage.cache
      ensures (outcome, storage.Value()) == Advance(rules, old(storage.Value()), id, a, actor, comment, f)
      ensures old(Inv(rules, storage.Value())) && RedisDeletes(f) ==> Inv(rules, storage.Value())
    {
      if Inv(rules, storage.Value()) && RedisDeletes(f) {
        AdvanceKeepsInv(rules, storage.Value(), id, a, actor, comment, f);
      }
      if !rules.gateOpen {
        return GateClosed;
      }
      var found := storage.GetPattern(id, f);
      if found.Err? {
        return Internal;
      }
      if found.value.None? {
        return NotFound;
      }
      var row := found.value.value;
      if row.status != Source(a) {
        return WrongStatus(row.status);
      }
      if !Validates(rules, row, a) {
        return ValidationFailed;
      }
      outcome := storage.TransitionPattern(id, a, actor, comment, f);
    }

    method AutoApproveIfEligible(id: string, f: Faults) returns (approved: bool)
      modifies storage, storage.db, storage.cache
      ensures (approved, storage.Value()) == AutoApprove(rules, old(storage.Value()), id, f)
    {
      if !rules.gateOpen {
        return false;
      }
      var found := storage.GetPattern(id, f);
      if found.Err? || found.value.None? {
        return false;
      }
      var row := found.value.value;
      if row.status != Review || row.sessions < 5 || row.confidence < 0.9 || !Parses(rules, row) {
        return false;
      }
      var outcome := Perform(id, Approve, "auto-approval-system", None, f);
      approved := outcome == Success;
    }
  }
}
