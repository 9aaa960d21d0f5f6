/**
 * The account registry: `get_dict_from_csv` turns the rows of the input file into a dict from
 * address to the row's other columns. Rows are what `csv.DictReader` yields: dicts from
 * column header to text, with the columns in header order.
 */
module Registry {
  import opened Base
  import opened Dicts
  import SnapshotStore

  type Row = SnapshotStore.Row
  /** The columns of one account other than its address. */
  type Metadata = Dict<string>
  type AccountInfo = Dict<Metadata>

  ghost predicate ValidRows(rows: seq<Row>)
  {
    forall i :: 0 <= i < |rows| ==> rows[i].Valid()
  }

  /** A registry as the input file can produce it: no account's metadata holds an address column. */
  ghost predicate ValidInfo(info: AccountInfo)
  {
    && info.Valid()
    && forall k :: k in info.values ==> info.values[k].Valid() && "address" !in info.values[k].values
  }

  /** `row.pop('address')` leaves the other columns, in header order. */
  function MetadataOf(row: Row): (m: Metadata)
    requires "address" in row.values
    ensures row.Valid() ==> m.Valid()
    ensures "address" !in m.values
    ensures forall h :: h in m.values <==> h in row.values && h != "address"
    ensures forall h :: h in m.values ==> m.values[h] == row.values[h]
  {
    row.Pop("address")
  }

  /** What `get_dict_from_csv` returns: the first row without an address column raises. */
  function RegistryFromRows(rows: seq<Row>): (r: Result<AccountInfo>)
    decreases |rows|
  {
    if rows == [] then Ok(Empty())
    else
      match RegistryFromRows(rows[..|rows| - 1])
      case Err(e) => Err(e)
      case Ok(data) =>
        var row := rows[|rows| - 1];
        if "address" !in row.values then Err("KeyError: 'address'")
        else Ok(data.Put(row.values["address"], MetadataOf(row)))
  }

  /** The assignments `data[key] = dict(row)` that loading performs, one per row, in order. */
  function RowAssignments(rows: seq<Row>): (pairs: seq<(string, Metadata)>)
    requires forall i :: 0 <= i < |rows| ==> "address" in rows[i].values
    ensures |pairs| == |rows|
  {
    seq(|rows|, i requires 0 <= i < |rows| && "address" in rows[i].values =>
      (rows[i].values["address"], MetadataOf(rows[i])))
  }

  /**
   * A registry loaded from well-formed rows is well formed, and no account's metadata holds
   * an address column.
   */
  lemma {:induction false} RegistryValid(rows: seq<Row>)
    requires ValidRows(rows)
    ensures RegistryFromRows(rows).Ok? ==> ValidInfo(RegistryFromRows(rows).value)
  {
    if rows != [] {
      var n := |rows| - 1;
      var init := rows[..n];
      assert ValidRows(init) by {
        forall i | 0 <= i < n ensures init[i].Valid() {
          assert init[i] == rows[i];
        }
      }
      RegistryValid(init);
    }
  }

  /** Once a prefix of the rows fails to load, the whole file fails with the same error. */
  lemma {:induction false} RegistryErrorStops(rows: seq<Row>, i: nat)
    requires i <= |rows|
    requires RegistryFromRows(rows[..i]).Err?
    ensures RegistryFromRows(rows) == RegistryFromRows(rows[..i])
    decreases |rows| - i
  {
    if i < |rows| {
      assert rows[..i + 1][..i] == rows[..i];
      RegistryErrorStops(rows, i + 1);
    } else {
      assert rows[..i] == rows;
    }
  }

  /** The last row adds exactly one condition for loading to succeed. */
  lemma RegistryOkStep(rows: seq<Row>)
    requires rows != []
    ensures RegistryFromRows(rows).Ok? <==>
              RegistryFromRows(rows[..|rows| - 1]).Ok? && "address" in rows[|rows| - 1].values
  {
    var init := rows[..|rows| - 1];
    assert forall i :: 0 <= i < |init| ==> init[i] == rows[i];
  }

  lemma {:induction false} RegistryOkHasAddress(rows: seq<Row>, i: nat)
    requires RegistryFromRows(rows).Ok? && i < |rows|
    ensures "address" in rows[i].values
  {
    RegistryOkStep(rows);
    var n := |rows| - 1;
    if i < n {
      RegistryOkHasAddress(rows[..n], i);
      assert rows[..n][i] == rows[i];
    }
  }

  lemma {:induction false} RegistryAddressesOk(rows: seq<Row>)
    requires forall i :: 0 <= i < |rows| ==> "address" in rows[i].values
    ensures RegistryFromRows(rows).Ok?
  {
    if rows != [] {
      var n := |rows| - 1;
      RegistryOkStep(rows);
      assert forall i :: 0 <= i < n ==> rows[..n][i] == rows[i];
      RegistryAddressesOk(rows[..n]);
    }
  }

  /** Loading succeeds exactly when every row has an address column. */
  lemma RegistryOk(rows: seq<Row>)
    ensures RegistryFromRows(rows).Ok? <==> forall i :: 0 <= i < |rows| ==> "address" in rows[i].values
  {
    if RegistryFromRows(rows).Ok? {
      forall i | 0 <= i < |rows| ensures "address" in rows[i].values {
        RegistryOkHasAddress(rows, i);
      }
    }
    if forall i :: 0 <= i < |rows| ==> "address" in rows[i].values {
      RegistryAddressesOk(rows);
    }
  }

  /**
   * A registry that loads is the dict its row assignments build: every address of the file is
   * a key, and it holds the other columns of the last row that names it.
   */
  lemma {:induction false} RegistryValue(rows: seq<Row>)
    requires forall i :: 0 <= i < |rows| ==> "address" in rows[i].values
    ensures RegistryFromRows(rows) == Ok(PutAll(RowAssignments(rows)))
  {
    if rows != [] {
      var n := |rows| - 1;
      var init := rows[..n];
      assert forall i :: 0 <= i < n ==> init[i] == rows[i];
      RegistryValue(init);
      var pairs := RowAssignments(rows);
      assert pairs[..n] == RowAssignments(init);
      var row := rows[n];
      assert pairs[n] == (row.values["address"], MetadataOf(row));
      assert PutAll(pairs) == PutAll(pairs[..n]).Put(pairs[n].0, pairs[n].1);
    }
  }

  /** Storing the metadata of an address-only row keeps every account's metadata empty. */
  lemma AddressOnlyPut(data: AccountInfo, row: Row)
    requires data.Valid() && row.keys == ["address"] && "address" in row.values
    requires forall k :: k in data.values ==> data.values[k].keys == []
    ensures forall k :: k in data.Put(row.values["address"], MetadataOf(row)).values ==>
              data.Put(row.values["address"], MetadataOf(row)).values[k].keys == []
  {
    assert Without(row.keys, "address") == [];
  }

  /** A file whose only column is `address` gives every account empty metadata. */
  lemma {:induction false} AddressOnlyRegistry(rows: seq<Row>)
    requires forall i :: 0 <= i < |rows| ==> rows[i].keys == ["address"] && "address" in rows[i].values
    ensures RegistryFromRows(rows).Ok?
    ensures forall k :: k in RegistryFromRows(rows).value.values ==>
              RegistryFromRows(rows).value.values[k].keys == []
  {
    if rows != [] {
      var n := |rows| - 1;
      var init := rows[..n];
      assert forall i :: 0 <= i < n ==> init[i] == rows[i];
      AddressOnlyRegistry(init);
      AddressOnlyPut(RegistryFromRows(init).value, rows[n]);
    }
  }

  /** `get_dict_from_csv`: fills `data` row by row; a row without an address raises. */
  method GetDictFromCsv(rows: seq<Row>) returns (r: Result<AccountInfo>)
    ensures r == RegistryFromRows(rows)
  {
    var data: AccountInfo := Empty();
    var i := 0;
    while i < |rows|
      invariant 0 <= i <= |rows|
      invariant RegistryFromRows(rows[..i]) == Ok(data)
    {
      assert rows[..i + 1][..i] == rows[..i];
      var row := rows[i];
      if "address" !in row.values {
        RegistryErrorStops(rows, i + 1);
        return Err("KeyError: 'address'");
      }
      var key := row.values["address"];
      data := data.Put(key, MetadataOf(row));
      i := i + 1;
    }
    assert rows[..i] == rows;
    r := Ok(data);
  }
}
