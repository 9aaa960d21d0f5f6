/**
 * The change detector, `compare_balances`: classifies every address of the new snapshot
 * against the previous one and alerts only on decreases.
 */
module ChangeDetector {
  import opened Base
  import opened Decimal
  import opened Dicts
  import opened SnapshotStore
  import opened Registry
  import opened Slack

  datatype Change = Decreased | Increased | Unchanged | NotFound

  /** The branch `compare_balances` takes for one address of the new snapshot. */
  function Classify(oldBalances: Snapshot, address: Address, newBalance: Lamports): Change
  {
    if address in oldBalances.values then
      if newBalance < oldBalances.values[address] then Decreased
      else if newBalance > oldBalances.values[address] then Increased
      else Unchanged
    else NotFound
  }

  /** The four cases are told apart by the source's conditions, each case by exactly one. */
  lemma ClassifyCases(oldBalances: Snapshot, address: Address, newBalance: Lamports)
    ensures Classify(oldBalances, address, newBalance) == Decreased <==>
              address in oldBalances.values && newBalance < oldBalances.values[address]
    ensures Classify(oldBalances, address, newBalance) == Increased <==>
              address in oldBalances.values && newBalance > oldBalances.values[address]
    ensures Classify(oldBalances, address, newBalance) == Unchanged <==>
              address in oldBalances.values && newBalance == oldBalances.values[address]
    ensures Classify(oldBalances, address, newBalance) == NotFound <==> address !in oldBalances.values
  {
  }

  /** The texts of the four branches of `compare_balances`, amounts in whole SOL. */
  function DecreasedText(address: Address, oldBalance: Lamports, newBalance: Lamports): string
  {
    "Balance of " + address + " has decreased from " + WholeSol(oldBalance) + " to " + WholeSol(newBalance) + " SOL"
  }

  function IncreasedText(address: Address, oldBalance: Lamports, newBalance: Lamports): string
  {
    "Balance of " + address + " has increased from " + WholeSol(oldBalance) + " to " + WholeSol(newBalance) + " SOL"
  }

  function UnchangedText(address: Address): string
  {
    "Balance of " + address + " has not changed"
  }

  function NotFoundText(address: Address): string
  {
    address + " not found in prior balance data"
  }

  /** The message `compare_balances` formats for one address; only a decrease is ever sent. */
  function ChangeMessage(oldBalances: Snapshot, address: Address, newBalance: Lamports): string
  {
    match Classify(oldBalances, address, newBalance)
    case Decreased => DecreasedText(address, oldBalances.values[address], newBalance)
    case Increased => IncreasedText(address, oldBalances.values[address], newBalance)
    case Unchanged => UnchangedText(address)
    case NotFound => NotFoundText(address)
  }

  /** The registry holds every address whose decrease will be reported. */
  ghost predicate CoversDecreases(oldBalances: Snapshot, keys: seq<Address>, newValues: map<Address, Lamports>,
                                  accountInfo: AccountInfo)
  {
    forall k :: k in keys && k in newValues && Classify(oldBalances, k, newValues[k]) == Decreased ==>
      k in accountInfo.values
  }

  /** The two texts sent for a decreased address: the change, then the account's metadata. */
  function DecreaseAlerts(oldBalances: Snapshot, address: Address, newBalance: Lamports,
                          accountInfo: AccountInfo): seq<string>
    requires ValidInfo(accountInfo) && address in accountInfo.values
  {
    [ChangeMessage(oldBalances, address, newBalance), AccountInfoText(address, accountInfo.values[address])]
  }

  /** What the loop sends for one address: the two decrease alerts when `hooked`, else nothing. */
  function AddressAlerts(oldBalances: Snapshot, address: Address, newBalance: Lamports, accountInfo: AccountInfo,
                         hooked: bool): seq<string>
    requires ValidInfo(accountInfo)
    requires hooked && Classify(oldBalances, address, newBalance) == Decreased ==> address in accountInfo.values
  {
    if hooked && Classify(oldBalances, address, newBalance) == Decreased
    then DecreaseAlerts(oldBalances, address, newBalance, accountInfo)
    else []
  }

  /** What the loop sends over the given keys of the new snapshot, `hooked` when a webhook is set. */
  function CompareAlerts(oldBalances: Snapshot, keys: seq<Address>, newValues: map<Address, Lamports>,
                         accountInfo: AccountInfo, hooked: bool): seq<string>
    requires ValidInfo(accountInfo) && forall k :: k in keys ==> k in newValues
    requires hooked ==> CoversDecreases(oldBalances, keys, newValues, accountInfo)
  {
    if keys == [] then []
    else
      var init := keys[..|keys| - 1];
      var address := keys[|keys| - 1];
      CompareAlerts(oldBalances, init, newValues, accountInfo, hooked)
        + AddressAlerts(oldBalances, address, newValues[address], accountInfo, hooked)
  }

  /** The addresses of the new snapshot whose balance went down, in snapshot order. */
  function DecreasedAddresses(oldBalances: Snapshot, keys: seq<Address>, newValues: map<Address, Lamports>)
    : (decreased: seq<Address>)
    requires forall k :: k in keys ==> k in newValues
    ensures forall k :: k in decreased <==>
              k in keys && k in oldBalances.values && newValues[k] < oldBalances.values[k]
  {
    if keys == [] then []
    else
      var address := keys[|keys| - 1];
      DecreasedAddresses(oldBalances, keys[..|keys| - 1], newValues)
        + if Classify(oldBalances, address, newValues[address]) == Decreased then [address] else []
  }

  /** Without a webhook, `compare_balances` sends nothing. */
  lemma {:induction false} CompareAlertsUnhooked(oldBalances: Snapshot, keys: seq<Address>,
                                                 newValues: map<Address, Lamports>, accountInfo: AccountInfo)
    requires ValidInfo(accountInfo) && forall k :: k in keys ==> k in newValues
    ensures CompareAlerts(oldBalances, keys, newValues, accountInfo, false) == []
  {
    if keys != [] {
      var init := keys[..|keys| - 1];
      assert forall k :: k in init ==> k in keys;
      CompareAlertsUnhooked(oldBalances, init, newValues, accountInfo);
    }
  }

  /** The alert pair of each of the given addresses, in order. */
  function AlertPairs(oldBalances: Snapshot, decreased: seq<Address>, newValues: map<Address, Lamports>,
                      accountInfo: AccountInfo): (pairs: seq<seq<string>>)
    requires ValidInfo(accountInfo)
    requires forall k :: k in decreased ==> k in newValues && k in accountInfo.values
    ensures |pairs| == |decreased|
  {
    seq(|decreased|, j requires 0 <= j < |decreased| && ValidInfo(accountInfo) && decreased[j] in newValues
                                  && decreased[j] in accountInfo.values =>
      DecreaseAlerts(oldBalances, decreased[j], newValues[decreased[j]], accountInfo))
  }

  /** The two alerts of each of the given addresses, one address after the other. */
  function DecreaseAlertsOf(oldBalances: Snapshot, decreased: seq<Address>, newValues: map<Address, Lamports>,
                            accountInfo: AccountInfo): seq<string>
    requires ValidInfo(accountInfo)
    requires forall k :: k in decreased ==> k in newValues && k in accountInfo.values
  {
    Flatten(AlertPairs(oldBalances, decreased, newValues, accountInfo))
  }

  /** `DecreaseAlertsOf` places the alerts of the `j`th address at `2 * j` and `2 * j + 1`. */
  lemma DecreaseAlertsOfIndex(oldBalances: Snapshot, decreased: seq<Address>,
                              newValues: map<Address, Lamports>, accountInfo: AccountInfo)
    requires ValidInfo(accountInfo)
    requires forall k :: k in decreased ==> k in newValues && k in accountInfo.values
    ensures var alerts := DecreaseAlertsOf(oldBalances, decreased, newValues, accountInfo);
            |alerts| == 2 * |decreased| &&
            forall j :: 0 <= j < |decreased| ==>
              alerts[2 * j] == ChangeMessage(oldBalances, decreased[j], newValues[decreased[j]]) &&
              alerts[2 * j + 1] == AccountInfoText(decreased[j], accountInfo.values[decreased[j]])
  {
    var pairs := AlertPairs(oldBalances, decreased, newValues, accountInfo);
    assert forall j :: 0 <= j < |pairs| ==>
      pairs[j] == [ChangeMessage(oldBalances, decreased[j], newValues[decreased[j]]),
                   AccountInfoText(decreased[j], accountInfo.values[decreased[j]])];
    FlattenPairs(pairs);
  }

  /** One more decreased address appends its two alerts. */
  lemma DecreaseAlertsOfSnoc(oldBalances: Snapshot, decreased: seq<Address>, address: Address,
                             newValues: map<Address, Lamports>, accountInfo: AccountInfo)
    requires ValidInfo(accountInfo) && address in newValues && address in accountInfo.values
    requires forall k :: k in decreased ==> k in newValues && k in accountInfo.values
    ensures forall k :: k in decreased + [address] ==> k in newValues && k in accountInfo.values
    ensures DecreaseAlertsOf(oldBalances, decreased + [address], newValues, accountInfo)
         == DecreaseAlertsOf(oldBalances, decreased, newValues, accountInfo)
            + DecreaseAlerts(oldBalances, address, newValues[address], accountInfo)
  {
    var pairs := AlertPairs(oldBalances, decreased + [address], newValues, accountInfo);
    var n := |decreased|;
    assert pairs[..n] == AlertPairs(oldBalances, decreased, newValues, accountInfo);
  }

  /** With a webhook, the alerts are those of the decreased addresses, in snapshot order. */
  lemma {:induction false} CompareAlertsHooked(oldBalances: Snapshot, keys: seq<Address>,
                                               newValues: map<Address, Lamports>, accountInfo: AccountInfo)
    requires ValidInfo(accountInfo) && forall k :: k in keys ==> k in newValues
    requires CoversDecreases(oldBalances, keys, newValues, accountInfo)
    ensures forall k :: k in DecreasedAddresses(oldBalances, keys, newValues) ==>
              k in newValues && k in accountInfo.values
    ensures CompareAlerts(oldBalances, keys, newValues, accountInfo, true)
         == DecreaseAlertsOf(oldBalances, DecreasedAddresses(oldBalances, keys, newValues), newValues, accountInfo)
  {
    if keys != [] {
      var init := keys[..|keys| - 1];
      var address := keys[|keys| - 1];
      assert forall k :: k in init ==> k in keys;
      CompareAlertsHooked(oldBalances, init, newValues, accountInfo);
      var before := DecreasedAddresses(oldBalances, init, newValues);
      var decreased := DecreasedAddresses(oldBalances, keys, newValues);
      var prior := CompareAlerts(oldBalances, init, newValues, accountInfo, true);
      var here := AddressAlerts(oldBalances, address, newValues[address], accountInfo, true);
      assert CompareAlerts(oldBalances, keys, newValues, accountInfo, true) == prior + here;
      if Classify(oldBalances, address, newValues[address]) == Decreased {
        assert decreased == before + [address];
        DecreaseAlertsOfSnoc(oldBalances, before, address, newValues, accountInfo);
      } else {
        assert decreased == before;
        assert here == [];
        assert prior + here == prior;
      }
    }
  }

  /**
   * With a webhook set, the alerts are exactly two per decreased address, in snapshot order:
   * the change message and then the account-info dump. Increases, unchanged balances and
   * addresses missing from the previous snapshot send nothing. Without a webhook nothing is sent.
   */
  lemma {:induction false} CompareAlertsSpec(oldBalances: Snapshot, keys: seq<Address>,
                                             newValues: map<Address, Lamports>, accountInfo: AccountInfo,
                                             hooked: bool)
    requires ValidInfo(accountInfo) && forall k :: k in keys ==> k in newValues
    requires hooked ==> CoversDecreases(oldBalances, keys, newValues, accountInfo)
    ensures !hooked ==> CompareAlerts(oldBalances, keys, newValues, accountInfo, hooked) == []
    ensures hooked ==>
              var decreased := DecreasedAddresses(oldBalances, keys, newValues);
              var alerts := CompareAlerts(oldBalances, keys, newValues, accountInfo, hooked);
              |alerts| == 2 * |decreased| &&
              forall j :: 0 <= j < |decreased| ==>
                decreased[j] in accountInfo.values &&
                alerts[2 * j] == ChangeMessage(oldBalances, decreased[j], newValues[decreased[j]]) &&
                alerts[2 * j + 1] == AccountInfoText(decreased[j], accountInfo.values[decreased[j]])
  {
    if hooked {
      CompareAlertsHooked(oldBalances, keys, newValues, accountInfo);
      DecreaseAlertsOfIndex(oldBalances, DecreasedAddresses(oldBalances, keys, newValues), newValues, accountInfo);
    } else {
      CompareAlertsUnhooked(oldBalances, keys, newValues, accountInfo);
    }
  }

  // A scenario: A goes from 10 SOL to 8 SOL, B stays at 5 SOL, C is new at 1 SOL, and no
  // account has metadata columns.
  const ScenarioOld: Snapshot := Dict(["A", "B"], map["A" := 10 * LamportsPerSol, "B" := 5 * LamportsPerSol])
  const ScenarioNew: Snapshot :=
    Dict(["A", "B", "C"], map["A" := 8 * LamportsPerSol, "B" := 5 * LamportsPerSol, "C" := LamportsPerSol])
  const ScenarioInfo: AccountInfo := Dict(["A", "B", "C"], map["A" := Empty(), "B" := Empty(), "C" := Empty()])

  /** `%d` of a whole number of SOL is that number. */
  lemma WholeSolOfSol(n: nat)
    ensures WholeSol(n * LamportsPerSol) == NatToString(n)
  {
    assert n * LamportsPerSol / LamportsPerSol == n;
  }

  /** The scenario drop of A from 10 to 8 SOL, worded. */
  lemma ScenarioDecreasedText()
    ensures DecreasedText("A", 10 * LamportsPerSol, 8 * LamportsPerSol) == "Balance of A has decreased from 10 to 8 SOL"
  {
    var ten, eight := WholeSol(10 * LamportsPerSol), WholeSol(8 * LamportsPerSol);
    assert ten == "10" by {
      WholeSolOfSol(10);
      assert NatToString(10) == NatToString(1) + [Digit(0)];
    }
    assert eight == "8" by {
      WholeSolOfSol(8);
    }
    var front := "Balance of " + "A" + " has decreased from ";
    assert front == "Balance of A has decreased from ";
    assert front + ten + " to " + eight == "Balance of A has decreased from 10 to 8";
  }

  /** The scenario snapshots and registry are well formed, and every decrease is registered. */
  lemma ScenarioWellFormed()
    ensures ValidInfo(ScenarioInfo) && ScenarioNew.Valid()
    ensures CoversDecreases(ScenarioOld, ScenarioNew.keys, ScenarioNew.values, ScenarioInfo)
  {
    assert ValidInfo(ScenarioInfo);
  }

  /** The two alerts for A in the scenario, as text. */
  lemma ScenarioAlertsA()
    ensures ValidInfo(ScenarioInfo) && "A" in ScenarioInfo.values
    ensures DecreaseAlerts(ScenarioOld, "A", 8 * LamportsPerSol, ScenarioInfo)
              == ["Balance of A has decreased from 10 to 8 SOL", "```address: A```"]
  {
    ScenarioWellFormed();
    assert ScenarioOld.values["A"] == 10 * LamportsPerSol;
    assert ChangeMessage(ScenarioOld, "A", 8 * LamportsPerSol)
        == DecreasedText("A", 10 * LamportsPerSol, 8 * LamportsPerSol);
    ScenarioDecreasedText();
    AccountInfoWithoutMetadata("A", ScenarioInfo.values["A"]);
    assert "```address: " + "A" + "```" == "```address: A```";
  }

  /** In the scenario the alerts are those of A alone. */
  lemma ScenarioOnlyA()
    ensures ValidInfo(ScenarioInfo) && ScenarioNew.Valid() && "A" in ScenarioInfo.values
    ensures CoversDecreases(ScenarioOld, ScenarioNew.keys, ScenarioNew.values, ScenarioInfo)
    ensures CompareAlerts(ScenarioOld, ScenarioNew.keys, ScenarioNew.values, ScenarioInfo, true)
              == DecreaseAlerts(ScenarioOld, "A", 8 * LamportsPerSol, ScenarioInfo)
  {
    ScenarioWellFormed();
    var values := ScenarioNew.values;
    var keys := ScenarioNew.keys;
    var alerts := DecreaseAlerts(ScenarioOld, "A", 8 * LamportsPerSol, ScenarioInfo);
    assert keys[..2] == ["A", "B"] && keys[..2][..1] == ["A"] && keys[..2][..1][..0] == [];
    assert Classify(ScenarioOld, "A", values["A"]) == Decreased;
    assert Classify(ScenarioOld, "B", values["B"]) == Unchanged;
    assert Classify(ScenarioOld, "C", values["C"]) == NotFound;
    assert CompareAlerts(ScenarioOld, ["A"], values, ScenarioInfo, true) == [] + alerts;
    assert CompareAlerts(ScenarioOld, ["A", "B"], values, ScenarioInfo, true) == alerts + [];
  }

  /** In the scenario only A is reported: its change, then its bare address line. */
  lemma DecreaseScenario()
    ensures ValidInfo(ScenarioInfo) && ScenarioNew.Valid()
    ensures CoversDecreases(ScenarioOld, ScenarioNew.keys, ScenarioNew.values, ScenarioInfo)
    ensures CompareAlerts(ScenarioOld, ScenarioNew.keys, ScenarioNew.values, ScenarioInfo, true)
              == ["Balance of A has decreased from 10 to 8 SOL", "```address: A```"]
  {
    ScenarioOnlyA();
    ScenarioAlertsA();
  }

  /**
   * One more address of the new snapshot adds its alerts, if any, after the earlier ones,
   * stated after a log `sent` of what went before.
   */
  lemma CompareAlertsNext(oldBalances: Snapshot, newBalances: Snapshot, accountInfo: AccountInfo, hooked: bool,
                          j: nat, sent: seq<string>)
    requires newBalances.Valid() && ValidInfo(accountInfo) && j < |newBalances.keys|
    requires hooked ==> CoversDecreases(oldBalances, newBalances.keys, newBalances.values, accountInfo)
    ensures forall k :: k in newBalances.keys[..j] ==> k in newBalances.values
    ensures forall k :: k in newBalances.keys[..j + 1] ==> k in newBalances.values
    ensures hooked ==> CoversDecreases(oldBalances, newBalances.keys[..j], newBalances.values, accountInfo)
    ensures hooked ==> CoversDecreases(oldBalances, newBalances.keys[..j + 1], newBalances.values, accountInfo)
    ensures var address := newBalances.keys[j];
            var newBalance := newBalances.values[address];
            sent + CompareAlerts(oldBalances, newBalances.keys[..j + 1], newBalances.values, accountInfo, hooked)
            == sent + CompareAlerts(oldBalances, newBalances.keys[..j], newBalances.values, accountInfo, hooked)
               + AddressAlerts(oldBalances, address, newBalance, accountInfo, hooked)
  {
    assert newBalances.keys[..j + 1][..j] == newBalances.keys[..j];
  }

  /** The branches of the loop body of `compare_balances` that word the change of one address. */
  method DescribeChange(oldBalances: Snapshot, address: Address, newBalance: Lamports)
    returns (message: string, sendMessage: bool)
    ensures message == ChangeMessage(oldBalances, address, newBalance)
    ensures sendMessage <==> Classify(oldBalances, address, newBalance) == Decreased
  {
    sendMessage := false;
    if address in oldBalances.values {
      if newBalance < oldBalances.values[address] {
        message := DecreasedText(address, oldBalances.values[address], newBalance);
        sendMessage := true;
      } else if newBalance > oldBalances.values[address] {
        message := IncreasedText(address, oldBalances.values[address], newBalance);
      } else {
        message := UnchangedText(address);
      }
    } else {
      message := NotFoundText(address);
    }
  }

  /** The body of the loop of `compare_balances` for one address: alert on a decrease. */
  method AlertOn(oldBalances: Snapshot, address: Address, newBalance: Lamports, accountInfo: AccountInfo, sink: Sink)
    requires ValidInfo(accountInfo)
    requires sink.webhook.Some? && Classify(oldBalances, address, newBalance) == Decreased ==>
               address in accountInfo.values
    modifies sink
    ensures sink.sent == old(sink.sent) + AddressAlerts(oldBalances, address, newBalance, accountInfo, sink.webhook.Some?)
  {
    var message, sendMessage := DescribeChange(oldBalances, address, newBalance);
    if sink.webhook.Some? && sendMessage {
      var _ := sink.Send(message);
      PublishAccountInfoToSlack(address, accountInfo, sink);
    }
  }

  /** `compare_balances`: classifies each address in turn and alerts on a decrease. */
  method CompareBalances(oldBalances: Snapshot, newBalances: Snapshot, accountInfo: AccountInfo, sink: Sink)
    requires newBalances.Valid() && ValidInfo(accountInfo)
    requires sink.webhook.Some? ==> CoversDecreases(oldBalances, newBalances.keys, newBalances.values, accountInfo)
    modifies sink
    ensures sink.sent == old(sink.sent) +
              CompareAlerts(oldBalances, newBalances.keys, newBalances.values, accountInfo, sink.webhook.Some?)
  {
    var hooked := sink.webhook.Some?;
    var j := 0;
    while j < |newBalances.keys|
      invariant 0 <= j <= |newBalances.keys|
      invariant forall k :: k in newBalances.keys[..j] ==> k in newBalances.values
      invariant hooked ==> CoversDecreases(oldBalances, newBalances.keys[..j], newBalances.values, accountInfo)
      invariant sink.sent == old(sink.sent) +
                  CompareAlerts(oldBalances, newBalances.keys[..j], newBalances.values, accountInfo, hooked)
    {
      var address := newBalances.keys[j];
      var newBalance := newBalances.values[address];
      CompareAlertsNext(oldBalances, newBalances, accountInfo, hooked, j, old(sink.sent));
      AlertOn(oldBalances, address, newBalance, accountInfo, sink);
      j := j + 1;
    }
    assert newBalances.keys[..j] == newBalances.keys;
  }
}
