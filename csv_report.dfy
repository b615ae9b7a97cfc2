/** `save_to_csv` (get-vulnerabilities.py:50-73) up to the rows it hands to
    `csv.DictWriter`: the column list and one cleaned row per record. The
    writer's quoting and the file itself are not part of this model. */
module CsvReport {
  import opened Values

  function KeySet(r: Record): set<string>
  {
    set k | k in Keys(r)
  }

  /** The union of the keys of all records. */
  function AllKeys(data: seq<Record>): set<string>
  {
    if data == [] then {} else AllKeys(data[..|data| - 1]) + KeySet(data[|data| - 1])
  }

  /** A key is a column exactly when some record has it. */
  lemma {:induction false} AllKeysSpec(data: seq<Record>, k: string)
    ensures k in AllKeys(data) <==> exists i :: 0 <= i < |data| && k in Keys(data[i])
  {
    if data != [] {
      var n := |data| - 1;
      var front := data[..n];
      AllKeysSpec(front, k);
      assert forall i :: 0 <= i < n ==> front[i] == data[i];
      if k in AllKeys(front) {
        var i :| 0 <= i < n && k in Keys(front[i]);
        assert k in Keys(data[i]);
      }
    }
  }

  /** Every key of every record is a column. */
  lemma RecordKeysAreColumns(data: seq<Record>, i: nat)
    requires i < |data|
    ensures forall k :: k in Keys(data[i]) ==> k in AllKeys(data)
  {
    forall k | k in Keys(data[i])
      ensures k in AllKeys(data)
    {
      AllKeysSpec(data, k);
    }
  }

  /** The loop of lines 56-58: `all_fields.update(row.keys())` for every row. */
  method CollectFields(data: seq<Record>) returns (fields: set<string>)
    ensures fields == AllKeys(data)
  {
    fields := {};
    for i := 0 to |data|
      invariant fields == AllKeys(data[..i])
    {
      assert data[..i + 1][..i] == data[..i];
      fields := fields + KeySet(data[i]);
    }
    assert data[..|data|] == data;
  }

  /** `list(all_fields)` (line 60): each field once, in an order the model
      leaves open, as the iteration order of a Python set is. */
  method ListFields(fields: set<string>) returns (names: seq<string>)
    ensures Distinct(names)
    ensures forall k :: k in names <==> k in fields
  {
    names := [];
    var rest := fields;
    while rest != {}
      invariant rest <= fields
      invariant Distinct(names)
      invariant forall k :: k in names <==> k in fields && k !in rest
      decreases |rest|
    {
      var k :| k in rest;
      names := names + [k];
      rest := rest - {k};
    }
  }

  /** The cell of a CSV row: `str(v)` for a present value, the empty string
      for None and for a key the record does not have. */
  function CellText(v: Option<Value>): string
  {
    match v
    case None => ""
    case Some(Null) => ""
    case Some(x) => ToStr(x)
  }

  /** The dict comprehension of line 67: every key of the row, with `str(v)`
      for a value and the empty string for None. */
  function Stringified(row: Record): (m: map<string, string>)
    ensures m.Keys == KeySet(row)
    ensures forall k :: k in m ==> m[k] == CellText(Get(row, k))
  {
    if row == [] then map[]
    else
      var f := row[0];
      assert row == [f] + row[1..];
      KeysCons(f, row[1..]);
      Stringified(row[1..])[f.key := if f.val == Null then "" else ToStr(f.val)]
  }

  /** Lines 67-71 for one row: the row's own keys and every field name get a
      cell, and no other key does. */
  method CleanRow(row: Record, fieldnames: seq<string>) returns (cleaned: map<string, string>)
    ensures forall k :: k in cleaned <==> k in Keys(row) || k in fieldnames
    ensures forall k :: k in cleaned ==> cleaned[k] == CellText(Get(row, k))
  {
    cleaned := Stringified(row);
    for i := 0 to |fieldnames|
      invariant forall k :: k in cleaned <==> k in Keys(row) || k in fieldnames[..i]
      invariant forall k :: k in cleaned ==> cleaned[k] == CellText(Get(row, k))
    {
      var field := fieldnames[i];
      if field !in cleaned {
        cleaned := cleaned[field := ""];
      }
    }
  }

  /** The header and the rows handed to `csv.DictWriter`. */
  datatype CsvTable = CsvTable(columns: seq<string>, rows: seq<map<string, string>>)

  /** A cleaned row gives every column a cell, and the cell is what the
      record holds there. */
  ghost predicate IsCsvRow(row: map<string, string>, rec: Record, columns: set<string>)
  {
    row.Keys == columns && forall k :: k in row ==> row[k] == CellText(Get(rec, k))
  }

  /** The header holds every key of every record once, and row `i` is the
      cleaned record `i`. */
  ghost predicate IsCsvFor(t: CsvTable, data: seq<Record>)
  {
    && Distinct(t.columns)
    && (forall k :: k in t.columns <==> k in AllKeys(data))
    && |t.rows| == |data|
    && forall i :: 0 <= i < |data| ==> IsCsvRow(t.rows[i], data[i], AllKeys(data))
  }

  lemma CleanedIsCsvRow(data: seq<Record>, i: nat, names: seq<string>, cleaned: map<string, string>)
    requires i < |data|
    requires forall k :: k in names <==> k in AllKeys(data)
    requires forall k :: k in cleaned <==> k in Keys(data[i]) || k in names
    requires forall k :: k in cleaned ==> cleaned[k] == CellText(Get(data[i], k))
    ensures IsCsvRow(cleaned, data[i], AllKeys(data))
  {
    RecordKeysAreColumns(data, i);
  }

  /** The row loop of lines 65-72: one cleaned row per record, in order. */
  method CleanRows(data: seq<Record>, names: seq<string>) returns (rows: seq<map<string, string>>)
    requires forall k :: k in names <==> k in AllKeys(data)
    ensures |rows| == |data|
    ensures forall i :: 0 <= i < |data| ==> IsCsvRow(rows[i], data[i], AllKeys(data))
  {
    rows := [];
    for i := 0 to |data|
      invariant |rows| == i
      invariant forall j :: 0 <= j < i ==> IsCsvRow(rows[j], data[j], AllKeys(data))
    {
      var cleaned := CleanRow(data[i], names);
      CleanedIsCsvRow(data, i, names, cleaned);
      rows := rows + [cleaned];
    }
  }

  /** `save_to_csv`: nothing for an empty list, otherwise the table. */
  method SaveCsv(data: seq<Record>) returns (t: Option<CsvTable>)
    ensures t.None? <==> data == []
    ensures t.Some? ==> IsCsvFor(t.value, data)
  {
    if data == [] {
      return None;
    }
    var fields := CollectFields(data);
    var names := ListFields(fields);
    var rows := CleanRows(data, names);
    t := Some(CsvTable(names, rows));
  }
}
