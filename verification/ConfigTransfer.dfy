/** Moving a configuration to another host: the overlay's export parsed and imported into an overlay without rows. */
module ConfigTransfer {
  import opened Wrappers
  import opened ConfigStore
  import EnvFile

  /** Which values a key accepts, whatever the rules are. */
  type Rules = (string, string) -> bool

  /** The overlay's rows as the export prints them, in the listed order. */
  function Exported(rows: map<string, Row>, order: seq<string>): seq<EnvFile.Row>
    requires forall k :: k in order ==> k in rows
  {
    seq(|order|, i requires 0 <= i < |order| => EnvFile.Row(order[i], rows[order[i]].value))
  }

  /** What a parsed file offers for import: non-empty values of eligible keys. */
  function Offered(raw: EnvFile.Values, keys: seq<string>): map<string, string> {
    map k | k in raw && k in keys && raw[k] != "" :: raw[k]
  }

  function Accepted(values: map<string, string>, rules: Rules): set<string> {
    set k | k in values && rules(k, values[k])
  }

  function Transfer(db: Db, text: string, keys: seq<string>, rules: Rules, at: int, id: nat): Db {
    match EnvFile.Parse(text)
    case Err(_) => db
    case Ok(raw) =>
      ImportKeys(db, keys, Offered(raw, keys), Accepted(Offered(raw, keys), rules), at, id)
  }

  /** `import --file`: a file that does not parse writes nothing. */
  method ImportFile(db: ConfigDb, text: string, keys: seq<string>, rules: Rules, at: int)
    returns (r: Result<Tally, EnvFile.ParseError>)
    requires forall i, j :: 0 <= i < j < |keys| ==> keys[i] != keys[j]
    modifies db
    ensures db.Contents() == Transfer(old(db.Contents()), text, keys, rules, at, old(db.nextId))
    ensures r.Ok? <==> EnvFile.Parse(text).Ok?
    ensures r.Err? ==> db.Contents() == old(db.Contents())
    ensures r.Ok? ==>
              var values := Offered(EnvFile.Parse(text).value, keys);
              && r.value == ImportTally(keys, old(db.rows), values, Accepted(values, rules))
              && FirstVersions(old(db.Contents()), db.Contents(), values, at)
  {
    var parsed := EnvFile.ParseEnvFile(text);
    if parsed.Err? { return Err(parsed.error); }
    var raw := parsed.value;
    var values := map[];
    for i := 0 to |keys|
      invariant values == Offered(raw, keys[..i])
    {
      assert keys[..i + 1] == keys[..i] + [keys[i]];
      if keys[i] in raw && raw[keys[i]] != "" { values := values[keys[i] := raw[keys[i]]]; }
    }
    assert keys[..|keys|] == keys;
    var imported, skipped, failed := db.Import(keys, values, Accepted(values, rules), at);
    r := Ok(Tally(imported, skipped, failed));
  }

  /** A value that the file carries, the importer takes up and the key accepts. */
  predicate Portable(key: string, value: string, keys: seq<string>, rules: Rules) {
    EnvFile.Clean(value) && value != "" && key in keys && rules(key, value)
  }

  // ----- which overlays arrive whole -----

  lemma ExportedIsStored(rows: map<string, Row>, order: seq<string>)
    requires forall k :: k in order <==> k in rows
    requires forall i, j :: 0 <= i < j < |order| ==> order[i] != order[j]
    requires forall k :: k in rows ==> EnvFile.ValidKey(k)
    ensures EnvFile.StoredRows(Exported(rows, order))
  {
    var e := Exported(rows, order);
    forall i | 0 <= i < |e| ensures EnvFile.ValidKey(e[i].key) {
      assert order[i] in rows;
    }
  }

  /** What arrives of one key. */
  lemma ArrivesExactly(db: Db, raw: EnvFile.Values, keys: seq<string>, rules: Rules, at: int, id: nat, k: string)
    requires db.rows == map[]
    ensures var values := Offered(raw, keys);
            var db' := ImportKeys(db, keys, values, Accepted(values, rules), at, id);
      CurrentValue(db'.rows, k)
      == if k in raw && k in keys && raw[k] != "" && rules(k, raw[k]) then Some(raw[k]) else None
  {
    var values := Offered(raw, keys);
    ImportNeverOverwrites(db, keys, values, Accepted(values, rules), at, id);
  }

  /** Exporting an overlay and importing the text into one without rows reproduces every value if and only if each
      value is clean, not empty, and acceptable under an eligible key. */
  lemma TransferReproducesExactly(rows: map<string, Row>, order: seq<string>, db: Db, keys: seq<string>, rules: Rules,
                                  at: int, id: nat)
    requires forall k :: k in order <==> k in rows
    requires forall i, j :: 0 <= i < j < |order| ==> order[i] != order[j]
    requires forall k :: k in rows ==> EnvFile.ValidKey(k)
    requires db.rows == map[]
    ensures var db' := Transfer(db, EnvFile.Render(Exported(rows, order)), keys, rules, at, id);
      (forall k :: CurrentValue(db'.rows, k) == CurrentValue(rows, k))
      <==> forall k :: k in rows ==> Portable(k, rows[k].value, keys, rules)
  {
    var e := Exported(rows, order);
    var text := EnvFile.Render(e);
    var db' := Transfer(db, text, keys, rules, at, id);
    ExportedIsStored(rows, order);
    if forall k :: CurrentValue(db'.rows, k) == CurrentValue(rows, k) {
      ArrivedIsPortable(rows, order, db, keys, rules, at, id);
    }
    if forall k :: k in rows ==> Portable(k, rows[k].value, keys, rules) {
      PortableArrives(rows, order, db, keys, rules, at, id);
    }
  }

  lemma ArrivedIsPortable(rows: map<string, Row>, order: seq<string>, db: Db, keys: seq<string>, rules: Rules,
                          at: int, id: nat)
    requires (forall k :: k in order <==> k in rows) && db.rows == map[]
    requires EnvFile.StoredRows(Exported(rows, order))
    requires var db' := Transfer(db, EnvFile.Render(Exported(rows, order)), keys, rules, at, id);
             forall k :: CurrentValue(db'.rows, k) == CurrentValue(rows, k)
    ensures forall k :: k in rows ==> Portable(k, rows[k].value, keys, rules)
  {
    var e := Exported(rows, order);
    var parsed := EnvFile.Parse(EnvFile.Render(e));
    var db' := Transfer(db, EnvFile.Render(e), keys, rules, at, id);
    if parsed.Err? {
      forall k ensures k !in rows { assert CurrentValue(db'.rows, k) == None; }
    } else {
      forall k | k in rows
        ensures k in parsed.value && k in keys && parsed.value[k] == rows[k].value != "" && rules(k, rows[k].value)
      {
        ArrivesExactly(db, parsed.value, keys, rules, at, id, k);
        assert CurrentValue(rows, k) == Some(rows[k].value);
      }
      EnvFile.ReadBackNeedsClean(e);
      forall k | k in rows ensures Portable(k, rows[k].value, keys, rules) {
        var i :| 0 <= i < |order| && order[i] == k;
        assert e[i].value == rows[k].value;
      }
    }
  }

  lemma PortableArrives(rows: map<string, Row>, order: seq<string>, db: Db, keys: seq<string>, rules: Rules,
                        at: int, id: nat)
    requires (forall k :: k in order <==> k in rows) && db.rows == map[]
    requires EnvFile.StoredRows(Exported(rows, order))
    requires forall k :: k in rows ==> Portable(k, rows[k].value, keys, rules)
    ensures var db' := Transfer(db, EnvFile.Render(Exported(rows, order)), keys, rules, at, id);
            forall k :: CurrentValue(db'.rows, k) == CurrentValue(rows, k)
  {
    var e := Exported(rows, order);
    forall i | 0 <= i < |e| ensures EnvFile.Clean(e[i].value) {
      assert order[i] in rows && Portable(order[i], rows[order[i]].value, keys, rules);
    }
    EnvFile.ExportRoundTripsExactly(e);
    var raw := EnvFile.Parse(EnvFile.Render(e)).value;
    var db' := Transfer(db, EnvFile.Render(e), keys, rules, at, id);
    assert forall i :: 0 <= i < |e| ==> order[i] in rows && e[i].key in rows;
    forall k ensures CurrentValue(db'.rows, k) == CurrentValue(rows, k) {
      ArrivesExactly(db, raw, keys, rules, at, id, k);
      if k in rows {
        var i :| 0 <= i < |order| && order[i] == k;
        assert e[i].key in raw && raw[e[i].key] == e[i].value;
      }
    }
  }
}
