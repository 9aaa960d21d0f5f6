/**
 * The snapshot file: `write_balances_to_file` and `read_balances_from_file`, at the level of
 * rows. A row is what `csv.DictReader` yields for one line: a dict from column header to text.
 * The header line `address,balance` that the writer puts first is what gives the rows their keys.
 */
module SnapshotStore {
  import opened Base
  import opened Decimal
  import opened Dicts

  type Address = string
  /** Balances are kept in lamports, the integer unit the node reports. */
  type Lamports = nat
  /** Address to balance, in the order the addresses were first stored. */
  type Snapshot = Dict<Lamports>
  type Row = Dict<string>

  /** The row read back for one written line `address,balance`. */
  function BalanceRow(address: Address, balance: Lamports): (row: Row)
    ensures row.Valid() && row.keys == ["address", "balance"]
  {
    Dict(["address", "balance"], map["address" := address, "balance" := NatToString(balance)])
  }

  /** The rows of the file `write_balances_to_file` leaves: one per entry, in dict order. */
  function BalanceRows(balances: Snapshot): (rows: seq<Row>)
    requires balances.Valid()
    ensures |rows| == |balances.keys|
  {
    seq(|balances.keys|, j requires 0 <= j < |balances.keys| =>
      BalanceRow(balances.keys[j], balances.values[balances.keys[j]]))
  }

  /** A row `read_balances_from_file` accepts: both columns present and the balance a number. */
  predicate WellFormedRow(row: Row)
  {
    "address" in row.values && "balance" in row.values && ParseNat(row.values["balance"]).Some?
  }

  /** What reading the rows yields: the first malformed row stops it with the Python exception. */
  function ReadRows(rows: seq<Row>): (r: Result<Snapshot>)
    decreases |rows|
  {
    if rows == [] then Ok(Empty())
    else
      match ReadRows(rows[..|rows| - 1])
      case Err(e) => Err(e)
      case Ok(data) =>
        var row := rows[|rows| - 1];
        if "address" !in row.values then Err("KeyError: 'address'")
        else if "balance" !in row.values then Err("KeyError: 'balance'")
        else
          match ParseNat(row.values["balance"])
          case None => Err("ValueError: could not convert string to float")
          case Some(b) => Ok(data.Put(row.values["address"], b))
  }

  /** The assignments `data[key] = val` that reading well-formed rows performs, in order. */
  function RowAssignments(rows: seq<Row>): (pairs: seq<(Address, Lamports)>)
    requires forall i :: 0 <= i < |rows| ==> WellFormedRow(rows[i])
    ensures |pairs| == |rows|
  {
    seq(|rows|, i requires 0 <= i < |rows| && WellFormedRow(rows[i]) =>
      (rows[i].values["address"], ParseNat(rows[i].values["balance"]).value))
  }

  /** Once a prefix of the rows fails to read, the whole file fails with the same error. */
  lemma {:induction false} ReadRowsErrorStops(rows: seq<Row>, i: nat)
    requires i <= |rows| && ReadRows(rows[..i]).Err?
    ensures ReadRows(rows) == ReadRows(rows[..i])
    decreases |rows| - i
  {
    if i < |rows| {
      assert rows[..i + 1][..i] == rows[..i];
      ReadRowsErrorStops(rows, i + 1);
    } else {
      assert rows[..i] == rows;
    }
  }

  /** Reading succeeds exactly when every row is well formed. */
  lemma {:induction false} ReadRowsOk(rows: seq<Row>)
    ensures ReadRows(rows).Ok? <==> forall i :: 0 <= i < |rows| ==> WellFormedRow(rows[i])
  {
    if rows != [] {
      var n := |rows| - 1;
      var init := rows[..n];
      ReadRowsOk(init);
      assert forall i :: 0 <= i < n ==> init[i] == rows[i];
    }
  }

  /**
   * A file that reads is the dict its row assignments build: every address in it is a key, and
   * a key holds the balance of the last row that names it.
   */
  lemma {:induction false} ReadRowsValue(rows: seq<Row>)
    requires forall i :: 0 <= i < |rows| ==> WellFormedRow(rows[i])
    ensures ReadRows(rows) == Ok(PutAll(RowAssignments(rows)))
  {
    if rows != [] {
      var n := |rows| - 1;
      var init := rows[..n];
      assert forall i :: 0 <= i < n ==> init[i] == rows[i];
      ReadRowsValue(init);
      var pairs := RowAssignments(rows);
      assert pairs[..n] == RowAssignments(init);
      var row := rows[n];
      assert pairs[n] == (row.values["address"], ParseNat(row.values["balance"]).value);
      assert PutAll(pairs) == PutAll(pairs[..n]).Put(pairs[n].0, pairs[n].1);
    }
  }

  /** Reading back the rows written for a snapshot gives that snapshot, in the same order. */
  lemma ReadWriteRoundTrip(balances: Snapshot)
    requires balances.Valid()
    ensures ReadRows(BalanceRows(balances)) == Ok(balances)
  {
    var rows := BalanceRows(balances);
    forall i | 0 <= i < |rows| ensures WellFormedRow(rows[i]) {
      ParseNatToString(balances.values[balances.keys[i]]);
    }
    ReadRowsValue(rows);
    var pairs := Items(balances);
    forall i | 0 <= i < |rows| ensures RowAssignments(rows)[i] == pairs[i] {
      ParseNatToString(balances.values[balances.keys[i]]);
    }
    assert RowAssignments(rows) == pairs;
    ItemsPutAll(balances);
  }

  /** `write_balances_to_file`: one row per entry of the snapshot, in iteration order. */
  method WriteBalancesToFile(balances: Snapshot) returns (rows: seq<Row>)
    requires balances.Valid()
    ensures rows == BalanceRows(balances)
  {
    rows := [];
    var j := 0;
    while j < |balances.keys|
      invariant 0 <= j <= |balances.keys|
      invariant rows == BalanceRows(balances)[..j]
    {
      var key := balances.keys[j];
      rows := rows + [BalanceRow(key, balances.values[key])];
      j := j + 1;
    }
  }

  /** `read_balances_from_file`: fills `data` row by row; a malformed row raises. */
  method ReadBalancesFromFile(rows: seq<Row>) returns (r: Result<Snapshot>)
    ensures r == ReadRows(rows)
  {
    var data: Snapshot := Empty();
    var i := 0;
    while i < |rows|
      invariant 0 <= i <= |rows|
      invariant ReadRows(rows[..i]) == Ok(data)
    {
      assert rows[..i + 1][..i] == rows[..i];
      var row := rows[i];
      if "address" !in row.values {
        ReadRowsErrorStops(rows, i + 1);
        return Err("KeyError: 'address'");
      }
      var key := row.values["address"];
      if "balance" !in row.values {
        ReadRowsErrorStops(rows, i + 1);
        return Err("KeyError: 'balance'");
      }
      var val := ParseNat(row.values["balance"]);
      if val.None? {
        ReadRowsErrorStops(rows, i + 1);
        return Err("ValueError: could not convert string to float");
      }
      data := data.Put(key, val.value);
      i := i + 1;
    }
    assert rows[..i] == rows;
    r := Ok(data);
  }
}
