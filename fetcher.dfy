/**
 * The balance fetcher, `get_latest_balances`: cuts the address list into batches of at most
 * 100, asks the RPC node for each batch in turn, and pairs the addresses with the balances.
 * The node is an oracle from a batch to its reply.
 */
module Fetcher {
  import opened Base
  import opened Dicts
  import opened SnapshotStore
  import opened Slack

  /** `max_addrs_per_request`. */
  const MaxAddrsPerRequest: nat := 100

  type Batch = seq<Address>

  /**
   * What one `getMultipleAccounts` call gives back: the error that made it raise (network,
   * a body that is not JSON, a missing `result` or `lamports` field), or `result.value` with
   * one entry per account in reply order, `None` for an account the chain does not hold.
   */
  datatype RpcReply = RpcError(message: string) | Accounts(entries: seq<Option<Lamports>>)

  type Rpc = Batch -> RpcReply

  /** The slices the loop requests from round `i` on, as its two branches cut them. */
  function BatchesFrom(addresses: seq<Address>, i: nat): (batches: seq<Batch>)
    requires MaxAddrsPerRequest * i <= |addresses|
    ensures batches != []
    decreases |addresses| - MaxAddrsPerRequest * i
  {
    if |addresses| <= MaxAddrsPerRequest * (i + 1) then [addresses[MaxAddrsPerRequest * i..]]
    else [addresses[MaxAddrsPerRequest * i..MaxAddrsPerRequest * (i + 1)]] + BatchesFrom(addresses, i + 1)
  }

  lemma BatchesFromUnfold(addresses: seq<Address>, i: nat)
    requires MaxAddrsPerRequest * i <= |addresses|
    ensures |addresses| <= MaxAddrsPerRequest * (i + 1) ==>
              BatchesFrom(addresses, i) == [addresses[MaxAddrsPerRequest * i..]]
    ensures |addresses| > MaxAddrsPerRequest * (i + 1) ==>
              BatchesFrom(addresses, i) ==
                [addresses[MaxAddrsPerRequest * i..MaxAddrsPerRequest * (i + 1)]] + BatchesFrom(addresses, i + 1)
  {
  }

  /** Every slice the loop requests, in order. */
  function Batches(addresses: seq<Address>): seq<Batch>
  {
    BatchesFrom(addresses, 0)
  }

  /** The number of calls: ceil(n / 100), and one call with an empty slice when n is 0. */
  function BatchCount(n: nat): nat
  {
    if n == 0 then 1 else (n + MaxAddrsPerRequest - 1) / MaxAddrsPerRequest
  }

  function Min(a: int, b: int): int { if a <= b then a else b }

  /** Slice `k` from round `i` on covers 100 (i + k) up to 100 (i + k + 1) or the end. */
  lemma {:induction false} BatchesFromAt(addresses: seq<Address>, i: nat, k: nat)
    requires MaxAddrsPerRequest * i <= |addresses| && k < |BatchesFrom(addresses, i)|
    ensures MaxAddrsPerRequest * (i + k) <= |addresses|
    ensures BatchesFrom(addresses, i)[k] ==
              addresses[MaxAddrsPerRequest * (i + k)..Min(MaxAddrsPerRequest * (i + k + 1), |addresses|)]
    decreases k
  {
    if k > 0 {
      assert |addresses| > MaxAddrsPerRequest * (i + 1);
      BatchesFromAt(addresses, i + 1, k - 1);
      assert i + 1 + (k - 1) == i + k;
    }
  }

  /** From round `i` on the loop makes ceil(n / 100) calls for the n addresses left, and one for none. */
  lemma {:induction false} BatchesFromCount(addresses: seq<Address>, i: nat)
    requires MaxAddrsPerRequest * i <= |addresses|
    ensures |BatchesFrom(addresses, i)| == BatchCount(|addresses| - MaxAddrsPerRequest * i)
    decreases |addresses| - MaxAddrsPerRequest * i
  {
    var left := |addresses| - MaxAddrsPerRequest * i;
    if |addresses| > MaxAddrsPerRequest * (i + 1) {
      BatchesFromCount(addresses, i + 1);
      assert (left + MaxAddrsPerRequest - 1) / MaxAddrsPerRequest
          == 1 + (left - MaxAddrsPerRequest + MaxAddrsPerRequest - 1) / MaxAddrsPerRequest;
    }
  }

  /** The slices from round `i` on, put back together, are the addresses from 100 i on. */
  lemma {:induction false} BatchesFromFlatten(addresses: seq<Address>, i: nat)
    requires MaxAddrsPerRequest * i <= |addresses|
    ensures Flatten(BatchesFrom(addresses, i)) == addresses[MaxAddrsPerRequest * i..]
    decreases |addresses| - MaxAddrsPerRequest * i
  {
    var lo := MaxAddrsPerRequest * i;
    if |addresses| <= MaxAddrsPerRequest * (i + 1) {
      FlattenCons(addresses[lo..], []);
      var none: seq<Batch> := [];
      assert Flatten(none) == [];
    } else {
      var rest := BatchesFrom(addresses, i + 1);
      BatchesFromFlatten(addresses, i + 1);
      var head := addresses[lo..lo + MaxAddrsPerRequest];
      FlattenCons(head, rest);
      assert addresses[lo..] == head + addresses[lo + MaxAddrsPerRequest..];
    }
  }

  /**
   * The batching loop makes ceil(n / 100) calls for n addresses, and one call with an empty
   * slice for none; the slices are consecutive, none longer than 100, and put back together
   * they are exactly the address list in order.
   */
  lemma BatchesSpec(addresses: seq<Address>)
    ensures |Batches(addresses)| == BatchCount(|addresses|)
    ensures addresses == [] ==> Batches(addresses) == [[]]
    ensures forall k :: 0 <= k < |Batches(addresses)| ==>
              MaxAddrsPerRequest * k <= |addresses| &&
              Batches(addresses)[k] ==
                addresses[MaxAddrsPerRequest * k..Min(MaxAddrsPerRequest * (k + 1), |addresses|)]
    ensures forall k :: 0 <= k < |Batches(addresses)| ==> |Batches(addresses)[k]| <= MaxAddrsPerRequest
    ensures Flatten(Batches(addresses)) == addresses
  {
    BatchesFromCount(addresses, 0);
    BatchesFromFlatten(addresses, 0);
    forall k | 0 <= k < |Batches(addresses)|
      ensures MaxAddrsPerRequest * k <= |addresses|
      ensures Batches(addresses)[k] == addresses[MaxAddrsPerRequest * k..Min(MaxAddrsPerRequest * (k + 1), |addresses|)]
      ensures |Batches(addresses)[k]| <= MaxAddrsPerRequest
    {
      BatchesFromAt(addresses, 0, k);
    }
    assert addresses[0..] == addresses;
    if addresses == [] {
      assert Batches(addresses) == [addresses[0..]];
    }
  }

  lemma FlattenBatches(addresses: seq<Address>)
    ensures Flatten(Batches(addresses)) == addresses
  {
    BatchesSpec(addresses);
  }

  /** The balance one reply entry appends: 0 for an absent account, else its lamports. */
  function BalanceOf(entry: Option<Lamports>): Lamports
  {
    match entry
    case None => 0
    case Some(lamports) => lamports
  }

  /** The balances the inner loop appends for one reply, in reply order. */
  function Converted(entries: seq<Option<Lamports>>): (balances: seq<Lamports>)
    ensures |balances| == |entries|
    ensures forall j :: 0 <= j < |entries| ==>
              balances[j] == if entries[j].None? then 0 else entries[j].value
  {
    if entries == [] then []
    else Converted(entries[..|entries| - 1]) + [BalanceOf(entries[|entries| - 1])]
  }

  /**
   * What the loop collects over a run of batches: every reply's balances in call order, or the
   * error of the first call that raised, in which case nothing collected is kept.
   */
  function FetchAll(batches: seq<Batch>, rpc: Rpc): Result<seq<Lamports>>
  {
    if batches == [] then Ok([])
    else
      match FetchAll(batches[..|batches| - 1], rpc)
      case Err(e) => Err(e)
      case Ok(balances) =>
        match rpc(batches[|batches| - 1])
        case RpcError(e) => Err(e)
        case Accounts(entries) => Ok(balances + Converted(entries))
  }

  lemma FetchAllNext(batches: seq<Batch>, b: Batch, rpc: Rpc)
    ensures FetchAll(batches + [b], rpc) ==
              match FetchAll(batches, rpc)
              case Err(e) => Err(e)
              case Ok(balances) =>
                match rpc(b)
                case RpcError(e) => Err(e)
                case Accounts(entries) => Ok(balances + Converted(entries))
  {
    assert (batches + [b])[..|batches|] == batches;
  }

  /** A failed prefix of the calls decides the whole fetch. */
  lemma {:induction false} FetchAllErrorStops(batches: seq<Batch>, rpc: Rpc, m: nat)
    requires m <= |batches| && FetchAll(batches[..m], rpc).Err?
    ensures FetchAll(batches, rpc) == FetchAll(batches[..m], rpc)
    decreases |batches| - m
  {
    if m < |batches| {
      assert batches[..m + 1][..m] == batches[..m];
      FetchAllErrorStops(batches, rpc, m + 1);
    } else {
      assert batches[..m] == batches;
    }
  }

  /**
   * The fetch fails exactly when some call fails, and then with the error of the first call
   * that failed.
   */
  lemma {:induction false} FetchAllError(batches: seq<Batch>, rpc: Rpc)
    ensures FetchAll(batches, rpc).Ok? <==> forall k :: 0 <= k < |batches| ==> rpc(batches[k]).Accounts?
    ensures FetchAll(batches, rpc).Err? ==>
              exists k :: 0 <= k < |batches| && rpc(batches[k]) == RpcError(FetchAll(batches, rpc).error)
                && forall k' :: 0 <= k' < k ==> rpc(batches[k']).Accounts?
  {
    if batches != [] {
      var n := |batches| - 1;
      var init := batches[..n];
      assert forall k :: 0 <= k < n ==> init[k] == batches[k];
      FetchAllError(init, rpc);
      if FetchAll(init, rpc).Ok? && FetchAll(batches, rpc).Err? {
        assert rpc(batches[n]) == RpcError(FetchAll(batches, rpc).error);
      }
    }
  }

  /** zip(addresses, balances): positional pairs, as many as the shorter list has. */
  function Zip(addresses: seq<Address>, balances: seq<Lamports>): (pairs: seq<(Address, Lamports)>)
    ensures |pairs| == Min(|addresses|, |balances|)
  {
    seq(Min(|addresses|, |balances|), j requires 0 <= j < Min(|addresses|, |balances|) =>
      (addresses[j], balances[j]))
  }

  /** `{k: v for k, v in zip(addresses, balances)}`. */
  function ZipDict(addresses: seq<Address>, balances: seq<Lamports>): (d: Snapshot)
    ensures d.Valid()
  {
    PutAll(Zip(addresses, balances))
  }

  /**
   * For distinct addresses, the dict pairs `addresses[j]` with `balances[j]`, in address order;
   * `zip` stops at the shorter list, so only the first `|balances|` addresses are keys when the
   * node returned fewer balances.
   */
  lemma ZipDictSpec(addresses: seq<Address>, balances: seq<Lamports>)
    requires Distinct(addresses)
    ensures ZipDict(addresses, balances).keys == addresses[..Min(|addresses|, |balances|)]
    ensures forall j :: 0 <= j < Min(|addresses|, |balances|) ==>
              ZipDict(addresses, balances).values[addresses[j]] == balances[j]
  {
    var pairs := Zip(addresses, balances);
    var n := Min(|addresses|, |balances|);
    assert Firsts(pairs) == addresses[..n];
    PutAllKeyOrder(pairs);
    forall j | 0 <= j < n ensures ZipDict(addresses, balances).values[addresses[j]] == balances[j] {
      assert LastFor(pairs, j);
      PutAllLastWins(pairs, j);
    }
  }

  /** A node that answers every batch from one ledger: the account state of each address. */
  ghost predicate AnswersFrom(rpc: Rpc, ledger: Address -> Option<Lamports>, batches: seq<Batch>)
  {
    forall k :: 0 <= k < |batches| ==> rpc(batches[k]) == Accounts(Lookup(ledger, batches[k]))
  }

  function Lookup(ledger: Address -> Option<Lamports>, addresses: seq<Address>): (entries: seq<Option<Lamports>>)
    ensures |entries| == |addresses|
  {
    seq(|addresses|, j requires 0 <= j < |addresses| => ledger(addresses[j]))
  }

  lemma ConvertedConcat(a: seq<Option<Lamports>>, b: seq<Option<Lamports>>)
    ensures Converted(a + b) == Converted(a) + Converted(b)
  {
    var ab := a + b;
    assert forall j :: 0 <= j < |a| ==> ab[j] == a[j];
    assert forall j :: |a| <= j < |ab| ==> ab[j] == b[j - |a|];
  }

  lemma {:induction false} LedgerFetchAll(batches: seq<Batch>, rpc: Rpc, ledger: Address -> Option<Lamports>)
    requires AnswersFrom(rpc, ledger, batches)
    ensures FetchAll(batches, rpc) == Ok(Converted(Lookup(ledger, Flatten(batches))))
  {
    if batches != [] {
      var n := |batches| - 1;
      var init := batches[..n];
      assert forall k :: 0 <= k < n ==> init[k] == batches[k];
      LedgerFetchAll(init, rpc, ledger);
      var front := Flatten(init);
      var last := batches[n];
      assert Lookup(ledger, front + last) == Lookup(ledger, front) + Lookup(ledger, last);
      ConvertedConcat(Lookup(ledger, front), Lookup(ledger, last));
    }
  }

  lemma LedgerBalances(addresses: seq<Address>, rpc: Rpc, ledger: Address -> Option<Lamports>)
    requires AnswersFrom(rpc, ledger, Batches(addresses))
    ensures FetchAll(Batches(addresses), rpc) == Ok(Converted(Lookup(ledger, addresses)))
  {
    FlattenBatches(addresses);
    LedgerFetchAll(Batches(addresses), rpc, ledger);
  }

  /**
   * With a node that answers from one ledger, the fetch succeeds and every monitored address
   * is a key of the snapshot, in registry order, holding its own balance: 0 when the account
   * does not exist, never a missing key.
   */
  lemma LedgerSnapshot(addresses: seq<Address>, rpc: Rpc, ledger: Address -> Option<Lamports>)
    requires Distinct(addresses) && AnswersFrom(rpc, ledger, Batches(addresses))
    ensures FetchAll(Batches(addresses), rpc).Ok?
    ensures ZipDict(addresses, FetchAll(Batches(addresses), rpc).value).keys == addresses
    ensures forall j :: 0 <= j < |addresses| ==>
              ZipDict(addresses, FetchAll(Batches(addresses), rpc).value).values[addresses[j]]
                == BalanceOf(ledger(addresses[j]))
  {
    var entries := Lookup(ledger, addresses);
    var balances := Converted(entries);
    LedgerBalances(addresses, rpc, ledger);
    var d := ZipDict(addresses, balances);
    ZipDictSpec(addresses, balances);
    assert d.keys == addresses by {
      assert Min(|addresses|, |balances|) == |addresses|;
      assert addresses[..|addresses|] == addresses;
    }
    forall j | 0 <= j < |addresses|
      ensures d.values[addresses[j]] == BalanceOf(ledger(addresses[j]))
    {
      assert entries[j] == ledger(addresses[j]);
    }
  }

  /** The inner loop of `get_latest_balances`: one balance appended per reply entry. */
  method AppendBalances(balances: seq<Lamports>, entries: seq<Option<Lamports>>) returns (result: seq<Lamports>)
    ensures result == balances + Converted(entries)
  {
    result := balances;
    var j := 0;
    while j < |entries|
      invariant 0 <= j <= |entries|
      invariant result == balances + Converted(entries[..j])
    {
      assert entries[..j + 1][..j] == entries[..j];
      if entries[j].None? {
        result := result + [0];
      } else {
        result := result + [entries[j].value];
      }
      j := j + 1;
    }
    assert entries[..j] == entries;
  }

  /**
   * One round of the batching loop: the slice cut at round `i` is the next slice of
   * `Batches`, and its reply either decides the whole fetch or extends the balances.
   */
  lemma FetchRound(addresses: seq<Address>, rpc: Rpc, i: nat, issued: seq<Batch>, balances: seq<Lamports>,
                   slice: Batch)
    requires MaxAddrsPerRequest * i <= |addresses|
    requires issued + BatchesFrom(addresses, i) == Batches(addresses)
    requires FetchAll(issued, rpc) == Ok(balances)
    requires slice == if |addresses| <= MaxAddrsPerRequest * (i + 1) then addresses[MaxAddrsPerRequest * i..]
                      else addresses[MaxAddrsPerRequest * i..MaxAddrsPerRequest * (i + 1)]
    ensures issued + [slice] <= Batches(addresses)
    ensures |addresses| <= MaxAddrsPerRequest * (i + 1) ==> issued + [slice] == Batches(addresses)
    ensures |addresses| > MaxAddrsPerRequest * (i + 1) ==>
              issued + [slice] + BatchesFrom(addresses, i + 1) == Batches(addresses)
    ensures rpc(slice).RpcError? ==> FetchAll(Batches(addresses), rpc) == Err(rpc(slice).message)
    ensures rpc(slice).Accounts? ==>
              FetchAll(issued + [slice], rpc) == Ok(balances + Converted(rpc(slice).entries))
  {
    var next := issued + [slice];
    BatchesFromUnfold(addresses, i);
    if |addresses| <= MaxAddrsPerRequest * (i + 1) {
      assert Batches(addresses) == next;
    } else {
      assert Batches(addresses) == next + BatchesFrom(addresses, i + 1);
    }
    assert next == Batches(addresses)[..|next|];
    FetchAllNext(issued, slice, rpc);
    if rpc(slice).RpcError? {
      FetchAllErrorStops(Batches(addresses), rpc, |next|);
    }
  }

  /**
   * The batching loop of `get_latest_balances`, up to the point where the balances are
   * complete or a call raised. `issued` lists the slices requested, in order.
   */
  method FetchBalances(addresses: seq<Address>, rpc: Rpc) returns (r: Result<seq<Lamports>>, issued: seq<Batch>)
    ensures r == FetchAll(Batches(addresses), rpc)
    ensures issued <= Batches(addresses)
    ensures r.Ok? ==> issued == Batches(addresses)
    ensures r.Err? ==> issued != [] && rpc(issued[|issued| - 1]) == RpcError(r.error)
    ensures r.Err? ==> forall k :: 0 <= k < |issued| - 1 ==> rpc(issued[k]).Accounts?
  {
    var balances: seq<Lamports> := [];
    var i: nat := 0;
    var lastIter := false;
    issued := [];
    while true
      invariant MaxAddrsPerRequest * i <= |addresses|
      invariant !lastIter
      invariant issued + BatchesFrom(addresses, i) == Batches(addresses)
      invariant FetchAll(issued, rpc) == Ok(balances)
      decreases |addresses| - MaxAddrsPerRequest * i
    {
      var slice: Batch;
      if |addresses| <= MaxAddrsPerRequest * (i + 1) {
        slice := addresses[MaxAddrsPerRequest * i..];
        lastIter := true;
      } else {
        slice := addresses[MaxAddrsPerRequest * i..MaxAddrsPerRequest * (i + 1)];
      }
      FetchRound(addresses, rpc, i, issued, balances, slice);
      var response := rpc(slice);
      ghost var before := issued;
      issued := issued + [slice];
      match response {
        case RpcError(e) =>
          FetchAllError(before, rpc);
          r := Err(e);
          return;
        case Accounts(entries) =>
          balances := AppendBalances(balances, entries);
      }
      if lastIter {
        break;
      }
      i := i + 1;
    }
    r := Ok(balances);
  }

  /**
   * `get_latest_balances`: the snapshot of the fetched balances, or `None` after reporting
   * the error text to the sink. Sending that report with no webhook configured raises, and
   * the exception escapes the `except` clause.
   */
  method GetLatestBalances(addresses: seq<Address>, rpc: Rpc, sink: Sink) returns (r: Outcome<Option<Snapshot>>)
    modifies sink
    ensures FetchAll(Batches(addresses), rpc).Ok? ==>
              r == Return(Some(ZipDict(addresses, FetchAll(Batches(addresses), rpc).value)))
              && sink.sent == old(sink.sent)
    ensures FetchAll(Batches(addresses), rpc).Err? && sink.webhook.Some? ==>
              r == Return(None) && sink.sent == old(sink.sent) + [FetchAll(Batches(addresses), rpc).error]
    ensures FetchAll(Batches(addresses), rpc).Err? && sink.webhook.None? ==>
              r.Raise? && sink.sent == old(sink.sent)
  {
    var fetched, _ := FetchBalances(addresses, rpc);
    match fetched {
      case Ok(balances) =>
        r := Return(Some(ZipDict(addresses, balances)));
      case Err(e) =>
        var delivered := sink.Send(e);
        if delivered {
          r := Return(None);
        } else {
          r := Raise("MissingSchema: Invalid URL 'None'");
        }
    }
  }
}
