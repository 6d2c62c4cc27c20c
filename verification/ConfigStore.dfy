/** The configuration overlay: versioned rows changed by compare-and-set, an audit entry written in the same
    transaction, and the commands and the startup seeding that do both. */
module ConfigStore {
  import opened Wrappers

  datatype Row = Row(value: string, version: nat)
  /** `newValue` is None for an unset, whose version is 0. */
  datatype AuditEntry = AuditEntry(key: string, oldValue: Option<string>, newValue: Option<string>,
                                   version: nat, changedAt: int, id: nat)
  /** `audit` is in commit order. */
  datatype Db = Db(rows: map<string, Row>, audit: seq<AuditEntry>)

  // ----- transactions as functions -----

  /** Expected version 0 demands that no row exists; a positive one demands that very version. */
  predicate CanSet(rows: map<string, Row>, key: string, expected: nat) {
    if expected == 0 then key !in rows else key in rows && rows[key].version == expected
  }

  function CommitSet(db: Db, key: string, value: string, expected: nat, old_: Option<string>, at: int, id: nat): Db {
    if CanSet(db.rows, key, expected)
    then Db(db.rows[key := Row(value, expected + 1)],
            db.audit + [AuditEntry(key, old_, Some(value), expected + 1, at, id)])
    else db
  }

  function CommitUnset(db: Db, key: string, old_: Option<string>, at: int, id: nat): Db {
    if key in db.rows
    then Db(db.rows - {key}, db.audit + [AuditEntry(key, old_, None, 0, at, id)])
    else db
  }

  /** One seeding: every listed key without a row gets its bootstrap value, in list order. */
  function SeedKeys(db: Db, keys: seq<string>, values: map<string, string>, at: int, firstId: nat): Db
    requires forall k :: k in keys ==> k in values
    decreases |keys|
  {
    if keys == [] then db else
    var db' := if keys[0] in db.rows then db else CommitSet(db, keys[0], values[keys[0]], 0, None, at, firstId);
    SeedKeys(db', keys[1..], values, at, firstId + 1)
  }

  // ----- what a command reads before its transaction -----

  function CurrentValue(rows: map<string, Row>, key: string): Option<string> {
    if key in rows then Some(rows[key].value) else None
  }

  function CurrentVersion(rows: map<string, Row>, key: string): nat {
    if key in rows then rows[key].version else 0
  }

  // ----- the history of one key -----

  /** The newest entry of `key` in commit order. */
  function Latest(audit: seq<AuditEntry>, key: string): Option<AuditEntry> {
    if audit == [] then None
    else if audit[|audit| - 1].key == key then Some(audit[|audit| - 1])
    else Latest(audit[..|audit| - 1], key)
  }

  function LatestValue(audit: seq<AuditEntry>, key: string): Option<string> {
    var e := Latest(audit, key);
    if e.None? then None else e.value.newValue
  }

  function LatestVersion(audit: seq<AuditEntry>, key: string): nat {
    var e := Latest(audit, key);
    if e.None? then 0 else e.value.version
  }

  function Listed(a: AuditEntry, b: AuditEntry): bool {
    a.changedAt < b.changedAt || (a.changedAt == b.changedAt && a.id <= b.id)
  }

  function InsertEntry(e: AuditEntry, s: seq<AuditEntry>): seq<AuditEntry> {
    if s == [] || Listed(e, s[0]) then [e] + s else [s[0]] + InsertEntry(e, s[1..])
  }

  /** The key's entries in the order the history is listed: by time of change, ties broken by id. */
  function ListByKey(audit: seq<AuditEntry>, key: string): seq<AuditEntry> {
    if audit == [] then []
    else if audit[0].key == key then InsertEntry(audit[0], ListByKey(audit[1..], key))
    else ListByKey(audit[1..], key)
  }

  /** The last listed entry with version `n`. */
  function RollbackTarget(history: seq<AuditEntry>, n: nat): Option<AuditEntry> {
    if history == [] then None
    else if history[|history| - 1].version == n then Some(history[|history| - 1])
    else RollbackTarget(history[..|history| - 1], n)
  }

  // ----- what an import does with each key -----

  predicate Imports(rows: map<string, Row>, key: string, values: map<string, string>, valid: set<string>) {
    key in values && key !in rows && key in valid
  }

  function ImportKeys(db: Db, keys: seq<string>, values: map<string, string>, valid: set<string>, at: int, id: nat): Db
    decreases |keys|
  {
    if keys == [] then db
    else if Imports(db.rows, keys[0], values, valid) then
      ImportKeys(CommitSet(db, keys[0], values[keys[0]], 0, None, at, id), keys[1..], values, valid, at, id + 1)
    else ImportKeys(db, keys[1..], values, valid, at, id)
  }

  datatype Tally = Tally(imported: nat, skipped: nat, failed: nat)

  /** A listed key with a value counts once: skipped if it has a row, failed if its value is invalid. */
  function ImportTally(keys: seq<string>, rows: map<string, Row>, values: map<string, string>, valid: set<string>)
    : Tally
    decreases |keys|
  {
    if keys == [] then Tally(0, 0, 0)
    else
      var t := ImportTally(keys[..|keys| - 1], rows, values, valid);
      var key := keys[|keys| - 1];
      if key !in values then t
      else if key in rows then t.(skipped := t.skipped + 1)
      else if key !in valid then t.(failed := t.failed + 1)
      else t.(imported := t.imported + 1)
  }

  /** The listed keys with a value that have a row, and those that have none. */
  function WithRow(keys: seq<string>, rows: map<string, Row>, values: map<string, string>): set<string> {
    set k | k in keys && k in values && k in rows
  }

  function Missing(keys: seq<string>, rows: map<string, Row>, values: map<string, string>): set<string> {
    set k | k in keys && k in values && k !in rows
  }

  // ----- the commands, run to completion -----

  datatype Status = Written | Unchanged | NotFound | Conflict

  /** The two tables and the commands on them. `nextId` supplies fresh audit ids. */
  class ConfigDb {
    var rows: map<string, Row>
    var audit: seq<AuditEntry>
    var nextId: nat

    /** A stored row has a positive version. */
    ghost predicate Valid()
      reads this
    {
      forall k :: k in rows ==> rows[k].version > 0
    }

    constructor ()
      ensures Valid() && Contents() == Db(map[], [])
    {
      rows, audit, nextId := map[], [], 0;
    }

    function Contents(): Db
      reads this
    {
      Db(rows, audit)
    }

    method SetTx(key: string, value: string, expected: nat, old_: Option<string>, at: int) returns (ok: bool)
      modifies this
      ensures ok == CanSet(old(rows), key, expected)
      ensures Contents() == CommitSet(old(Contents()), key, value, expected, old_, at, old(nextId))
      ensures ok ==> rows == old(rows)[key := Row(value, expected + 1)]
                     && audit == old(audit) + [AuditEntry(key, old_, Some(value), expected + 1, at, old(nextId))]
      ensures !ok ==> rows == old(rows) && audit == old(audit)
      ensures nextId == old(nextId) + 1
    {
      ok := CanSet(rows, key, expected);
      if ok {
        rows := rows[key := Row(value, expected + 1)];
        audit := audit + [AuditEntry(key, old_, Some(value), expected + 1, at, nextId)];
      }
      nextId := nextId + 1;
    }

    method UnsetTx(key: string, old_: Option<string>, at: int) returns (ok: bool)
      modifies this
      ensures ok == (key in old(rows))
      ensures Contents() == CommitUnset(old(Contents()), key, old_, at, old(nextId))
      ensures ok ==> rows == old(rows) - {key}
                     && audit == old(audit) + [AuditEntry(key, old_, None, 0, at, old(nextId))]
      ensures !ok ==> rows == old(rows) && audit == old(audit)
      ensures nextId == old(nextId) + 1
    {
      ok := key in rows;
      if ok {
        rows := rows - {key};
        audit := audit + [AuditEntry(key, old_, None, 0, at, nextId)];
      }
      nextId := nextId + 1;
    }

    /** A set alone always goes through and chains its audit entry to the value it replaced. */
    method ConfigSet(key: string, value: string, at: int) returns (s: Status)
      requires Valid()
      modifies this
      ensures Valid()
      ensures s == Written && key in rows && rows[key] == Row(value, old(CurrentVersion(rows, key)) + 1)
      ensures Contents() == CommitSet(old(Contents()), key, value, old(CurrentVersion(rows, key)),
                                      old(CurrentValue(rows, key)), at, old(nextId))
    {
      var ok := SetTx(key, value, CurrentVersion(rows, key), CurrentValue(rows, key), at);
      s := if ok then Written else Conflict;
    }

    method ConfigUnset(key: string, at: int) returns (s: Status)
      requires Valid()
      modifies this
      ensures Valid()
      ensures s == if key in old(rows) then Written else NotFound
      ensures Contents() == CommitUnset(old(Contents()), key, old(CurrentValue(rows, key)), at, old(nextId))
    {
      if key !in rows { return NotFound; }
      var ok := UnsetTx(key, CurrentValue(rows, key), at);
      s := if ok then Written else NotFound;
    }

    /** Rolling back re-applies the value of the last listed entry with version `n` as a new write. */
    method ConfigRollback(key: string, n: nat, at: int) returns (s: Status)
      requires Valid()
      modifies this
      ensures Valid()
      ensures var target := RollbackTarget(ListByKey(old(audit), key), n);
              match target
              case None => s == NotFound && Contents() == old(Contents())
              case Some(t) =>
                && CurrentValue(rows, key) == t.newValue
                && s == (if t.newValue.None? && key !in old(rows) then Unchanged else Written)
                && Contents() == match t.newValue
                                 case Some(v) => CommitSet(old(Contents()), key, v, old(CurrentVersion(rows, key)),
                                                           old(CurrentValue(rows, key)), at, old(nextId))
                                 case None => CommitUnset(old(Contents()), key, old(CurrentValue(rows, key)), at,
                                                          old(nextId))
    {
      var history := ListByKey(audit, key);
      var target := None;
      var i := |history|;
      assert history[..i] == history;
      while i > 0 && target.None?
        invariant 0 <= i <= |history|
        invariant target.None? ==> RollbackTarget(history, n) == RollbackTarget(history[..i], n)
        invariant target.Some? ==> target == RollbackTarget(history, n)
      {
        i := i - 1;
        assert history[..i + 1][..i] == history[..i];
        if history[i].version == n { target := Some(history[i]); }
      }
      if target.None? { return NotFound; }
      var oldValue, expected := CurrentValue(rows, key), CurrentVersion(rows, key);
      if target.value.newValue.None? && expected == 0 { return Unchanged; }
      var ok;
      if target.value.newValue.None? {
        ok := UnsetTx(key, oldValue, at);
      } else {
        ok := SetTx(key, target.value.newValue.value, expected, oldValue, at);
      }
      s := if ok then Written else Conflict;
    }

    /** Startup seeding in one transaction; with `fault`, nothing of it remains. */
    method Seed(keys: seq<string>, values: map<string, string>, at: int, fault: bool) returns (seeded: nat)
      requires forall i, j :: 0 <= i < j < |keys| ==> keys[i] != keys[j]
      requires forall k :: k in keys ==> k in values
      modifies this
      ensures Contents() == if fault then old(Contents()) else SeedKeys(old(Contents()), keys, values, at, old(nextId))
      ensures !fault ==> FirstVersions(old(Contents()), Contents(), values, at)
                         && forall k :: k in rows <==> k in old(rows) || k in keys
      ensures fault ==> seeded == 0
      ensures !fault ==> seeded == |audit| - |old(audit)|
    {
      ghost var before, firstId := Contents(), nextId;
      var savedRows, savedAudit := rows, audit;
      seeded := SeedMissing(keys, values, at);
      SeedNeverOverwrites(before, keys, values, at, firstId);
      if fault { rows, audit, seeded := savedRows, savedAudit, 0; }
    }

    /** The statements of that transaction. */
    method SeedMissing(keys: seq<string>, values: map<string, string>, at: int) returns (seeded: nat)
      requires forall i, j :: 0 <= i < j < |keys| ==> keys[i] != keys[j]
      requires forall k :: k in keys ==> k in values
      modifies this
      ensures Contents() == SeedKeys(old(Contents()), keys, values, at, old(nextId))
      ensures seeded == |audit| - |old(audit)|
    {
      ghost var before, firstId := Contents(), nextId;
      var already := rows.Keys;
      seeded := 0;
      var i := 0;
      while i < |keys|
        invariant 0 <= i <= |keys|
        invariant nextId == firstId + i
        invariant SeedKeys(before, keys, values, at, firstId) == SeedKeys(Contents(), keys[i..], values, at, nextId)
        invariant forall k :: k in rows <==> k in already || k in keys[..i]
        invariant seeded == |audit| - |before.audit|
      {
        assert keys[i..][1..] == keys[i + 1..];
        assert forall k :: k in keys[..i + 1] <==> k in keys[..i] || k == keys[i];
        if keys[i] in already {
          nextId := nextId + 1;
        } else {
          assert keys[i] !in rows;
          var ok := SetTx(keys[i], values[keys[i]], 0, None, at);
          seeded := seeded + 1;
        }
        i := i + 1;
      }
    }

    /** Import writes each listed, valid value whose key has no row, one transaction per key. */
    method Import(keys: seq<string>, values: map<string, string>, valid: set<string>, at: int)
      returns (imported: nat, skipped: nat, failed: nat)
      requires forall i, j :: 0 <= i < j < |keys| ==> keys[i] != keys[j]
      modifies this
      ensures Contents() == ImportKeys(old(Contents()), keys, values, valid, at, old(nextId))
      ensures Tally(imported, skipped, failed) == ImportTally(keys, old(rows), values, valid)
      ensures FirstVersions(old(Contents()), Contents(), values, at)
      ensures forall k :: k in rows <==> k in old(rows) || (k in keys && k in values && k in valid)
      ensures skipped == |WithRow(keys, old(rows), values)|
      ensures imported == |Missing(keys, old(rows), values) * valid|
      ensures failed == |Missing(keys, old(rows), values) - valid|
    {
      imported, skipped, failed := 0, 0, 0;
      ghost var before, firstId := Contents(), nextId;
      for i := 0 to |keys|
        invariant ImportKeys(before, keys, values, valid, at, firstId)
               == ImportKeys(Contents(), keys[i..], values, valid, at, nextId)
        invariant Tally(imported, skipped, failed) == ImportTally(keys[..i], before.rows, values, valid)
        invariant forall j :: i <= j < |keys| ==> (keys[j] in rows <==> keys[j] in before.rows)
      {
        var key := keys[i];
        assert keys[i..][1..] == keys[i + 1..] && keys[..i + 1][..i] == keys[..i];
        if key !in values { continue; }
        if key in rows {
          skipped := skipped + 1;
          continue;
        }
        if key !in valid {
          failed := failed + 1;
          continue;
        }
        var ok := SetTx(key, values[key], 0, None, at);
        if ok { imported := imported + 1; } else { failed := failed + 1; }
      }
      assert keys[|keys|..] == [] && keys[..|keys|] == keys;
      ImportNeverOverwrites(before, keys, values, valid, at, firstId);
      TallyCounts(keys, before.rows, values, valid);
    }
  }

  /** `b` has all of `a` and besides rows at version 1 with their given values, each written by one audited set of its
      key that replaced nothing. */
  ghost predicate FirstVersions(a: Db, b: Db, values: map<string, string>, at: int) {
    && (forall k :: k in a.rows ==> k in b.rows && b.rows[k] == a.rows[k])
    && (forall k :: k in b.rows && k !in a.rows ==> k in values && b.rows[k] == Row(values[k], 1))
    && a.audit <= b.audit
    && (forall i :: |a.audit| <= i < |b.audit| ==>
          var e := b.audit[i];
          && e.key in b.rows && e.key !in a.rows && e.key in values
          && e == AuditEntry(e.key, None, Some(values[e.key]), 1, at, e.id))
    && (forall i, j :: |a.audit| <= i < j < |b.audit| ==> b.audit[i].key != b.audit[j].key)
    && |b.audit| - |a.audit| == |b.rows| - |a.rows|
  }

  lemma FirstVersionsFollow(a: Db, b: Db, c: Db, values: map<string, string>, at: int, key: string, id: nat)
    requires key in values && key !in a.rows && b == CommitSet(a, key, values[key], 0, None, at, id)
    requires FirstVersions(b, c, values, at)
    ensures FirstVersions(a, c, values, at)
  {
    assert b.rows.Keys == a.rows.Keys + {key} && |b.rows.Keys| == |a.rows.Keys| + 1;
    assert c.audit[|a.audit|] == b.audit[|a.audit|] == AuditEntry(key, None, Some(values[key]), 1, at, id);
    forall i | |a.audit| <= i < |c.audit|
      ensures var e := c.audit[i];
        && e.key in c.rows && e.key !in a.rows && e.key in values
        && e == AuditEntry(e.key, None, Some(values[e.key]), 1, at, e.id)
    {
      if i > |a.audit| { assert c.audit[i].key !in b.rows; }
    }
  }

  /** Seeding never touches an existing row and gives every other listed key its bootstrap value. */
  lemma {:induction false} SeedNeverOverwrites(db: Db, keys: seq<string>, values: map<string, string>, at: int, id: nat)
    requires forall k :: k in keys ==> k in values
    ensures var db' := SeedKeys(db, keys, values, at, id);
            FirstVersions(db, db', values, at) && forall k :: k in db'.rows <==> k in db.rows || k in keys
    decreases |keys|
  {
    if keys != [] {
      var db1 := if keys[0] in db.rows then db else CommitSet(db, keys[0], values[keys[0]], 0, None, at, id);
      SeedNeverOverwrites(db1, keys[1..], values, at, id + 1);
      var db' := SeedKeys(db1, keys[1..], values, at, id + 1);
      if keys[0] !in db.rows { FirstVersionsFollow(db, db1, db', values, at, keys[0], id); }
      assert forall k :: k in keys <==> k == keys[0] || k in keys[1..];
    }
  }

  lemma NewKey(init: seq<string>, key: string, rows: map<string, Row>, values: map<string, string>)
    requires key !in init
    ensures var w, m := WithRow(init, rows, values), Missing(init, rows, values);
            var w', m' := WithRow(init + [key], rows, values), Missing(init + [key], rows, values);
      && key !in w && key !in m
      && (key !in values ==> w' == w && m' == m)
      && (key in values && key in rows ==> w' == w + {key} && m' == m)
      && (key in values && key !in rows ==> w' == w && m' == m + {key})
  {
    assert forall k :: k in init + [key] <==> k in init || k == key;
  }

  ghost predicate Counted(t: Tally, w: set<string>, m: set<string>, valid: set<string>) {
    t.skipped == |w| && t.imported == |m * valid| && t.failed == |m - valid|
  }

  lemma CountValid(m: set<string>, valid: set<string>, key: string)
    requires key !in m && key in valid
    ensures |(m + {key}) * valid| == |m * valid| + 1 && (m + {key}) - valid == m - valid
  {
    var inside := m * valid;
    assert (m + {key}) * valid == inside + {key} && key !in inside;
    assert |inside + {key}| == |inside| + 1;
  }

  lemma CountInvalid(m: set<string>, valid: set<string>, key: string)
    requires key !in m && key !in valid
    ensures |(m + {key}) - valid| == |m - valid| + 1 && (m + {key}) * valid == m * valid
  {
    var outside := m - valid;
    assert (m + {key}) - valid == outside + {key} && key !in outside;
    assert |outside + {key}| == |outside| + 1;
  }

  lemma CountNewKey(init: seq<string>, key: string, rows: map<string, Row>, values: map<string, string>,
                    valid: set<string>, t: Tally)
    requires key !in init && Counted(t, WithRow(init, rows, values), Missing(init, rows, values), valid)
    ensures var t' := if key !in values then t
                      else if key in rows then t.(skipped := t.skipped + 1)
                      else if key !in valid then t.(failed := t.failed + 1)
                      else t.(imported := t.imported + 1);
            Counted(t', WithRow(init + [key], rows, values), Missing(init + [key], rows, values), valid)
  {
    NewKey(init, key, rows, values);
    if key in values && key !in rows {
      if key in valid {
        CountValid(Missing(init, rows, values), valid, key);
      } else {
        CountInvalid(Missing(init, rows, values), valid, key);
      }
    }
  }

  /** The three counts are those of the keys that have a row, a valid value without one, or an invalid one. */
  lemma {:induction false} TallyCounts(keys: seq<string>, rows: map<string, Row>, values: map<string, string>,
                                       valid: set<string>)
    requires forall i, j :: 0 <= i < j < |keys| ==> keys[i] != keys[j]
    ensures Counted(ImportTally(keys, rows, values, valid), WithRow(keys, rows, values), Missing(keys, rows, values),
                    valid)
    decreases |keys|
  {
    if keys != [] {
      var init, key := keys[..|keys| - 1], keys[|keys| - 1];
      TallyCounts(init, rows, values, valid);
      assert keys == init + [key] && key !in init;
      CountNewKey(init, key, rows, values, valid, ImportTally(init, rows, values, valid));
    } else {
      assert Missing(keys, rows, values) == {} && WithRow(keys, rows, values) == {};
    }
  }

  /** An import never touches an existing row, and gives a missing listed key its value at version 1 exactly when
      that is valid; each row it adds is one audited write with no old value. */
  lemma {:induction false} ImportNeverOverwrites(db: Db, keys: seq<string>, values: map<string, string>,
                                                 valid: set<string>, at: int, id: nat)
    ensures var db' := ImportKeys(db, keys, values, valid, at, id);
      && FirstVersions(db, db', values, at)
      && (forall k :: k in db'.rows <==> k in db.rows || (k in keys && k in values && k in valid))
    decreases |keys|
  {
    if keys != [] {
      var added := Imports(db.rows, keys[0], values, valid);
      var db1 := if added then CommitSet(db, keys[0], values[keys[0]], 0, None, at, id) else db;
      var id1 := if added then id + 1 else id;
      ImportNeverOverwrites(db1, keys[1..], values, valid, at, id1);
      var db' := ImportKeys(db1, keys[1..], values, valid, at, id1);
      if added { FirstVersionsFollow(db, db1, db', values, at, keys[0], id); }
      assert forall k :: k in keys <==> k == keys[0] || k in keys[1..];
    }
  }
}
