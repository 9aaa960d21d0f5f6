/**
 * The monitor loop of `main`: startup (registry, prior snapshot, announcement) and one
 * iteration of its `while True` body. The clock reading `now` is a parameter; the sleep that
 * ends each iteration is left to whoever calls `Step` again.
 */
module Monitor {
  import opened Base
  import opened Decimal
  import opened Dicts
  import opened SnapshotStore
  import opened Registry
  import opened Slack
  import opened Fetcher
  import opened ChangeDetector

  const StartupMessage := "Starting account monitoring with the following known balances:"
  const FetchFailedMessage := "Unable to retrieve latest balances from RPC node"

  /** The heartbeat text, with the seconds since the snapshot file was last written. */
  function LivenessMessage(livenessCheckInterval: int, balanceCheckInterval: int, staleness: int): string
  {
    "Liveness Check interval: " + IntToString(livenessCheckInterval) + " seconds\n"
      + "Balance check interval: " + IntToString(balanceCheckInterval) + " seconds\n"
      + "Time since last balance update: " + IntToString(staleness) + " seconds"
  }

  /** A `%d` numeral holds no line break. */
  lemma IntToStringNoNewline(i: int)
    ensures Newlines(IntToString(i)) == 0
  {
    NoNewlines(IntToString(i));
  }

  /**
   * Three captioned figures, each free of line breaks, with a line break closing the first
   * two, make three lines.
   */
  lemma {:induction false} CaptionedNewlines(c1: string, f1: string, u1: string, c2: string, f2: string, u2: string,
                                             c3: string, f3: string, u3: string)
    requires Newlines(c1) == 0 && Newlines(f1) == 0 && Newlines(u1) == 1
    requires Newlines(c2) == 0 && Newlines(f2) == 0 && Newlines(u2) == 1
    requires Newlines(c3) == 0 && Newlines(f3) == 0 && Newlines(u3) == 0
    ensures Newlines(c1 + f1 + u1 + c2 + f2 + u2 + c3 + f3 + u3) == 2
  {
    NewlinesConcat(c1, f1);
    NewlinesConcat(c1 + f1, u1);
    NewlinesConcat(c1 + f1 + u1, c2);
    NewlinesConcat(c1 + f1 + u1 + c2, f2);
    NewlinesConcat(c1 + f1 + u1 + c2 + f2, u2);
    NewlinesConcat(c1 + f1 + u1 + c2 + f2 + u2, c3);
    NewlinesConcat(c1 + f1 + u1 + c2 + f2 + u2 + c3, f3);
    NewlinesConcat(c1 + f1 + u1 + c2 + f2 + u2 + c3 + f3, u3);
  }

  /**
   * The captions of the heartbeat and the unit of its lines hold no line break, except the
   * one that closes each of the first two lines. Each literal takes a lemma of its own: the
   * solver cannot check them all in one proof.
   */
  lemma LivenessCaptionNoBreak()
    ensures Newlines("Liveness Check interval: ") == 0
  {
    NoNewlines("Liveness Check interval: ");
  }

  lemma BalanceCaptionNoBreak()
    ensures Newlines("Balance check interval: ") == 0
  {
    NoNewlines("Balance check interval: ");
  }

  lemma StalenessCaptionNoBreak()
    ensures Newlines("Time since last balance update: ") == 0
  {
    NoNewlines("Time since last balance update: ");
  }

  lemma SecondsNoBreak()
    ensures Newlines(" seconds") == 0
  {
    NoNewlines(" seconds");
  }

  lemma SecondsLineBreak()
    ensures Newlines(" seconds\n") == 1
  {
    assert " seconds\n" == " seconds" + "\n";
    NoNewlines(" seconds");
    NewlinesConcat(" seconds", "\n");
  }

  /** The heartbeat is three lines, whatever its three figures are. */
  lemma LivenessMessageLines(livenessCheckInterval: int, balanceCheckInterval: int, staleness: int)
    ensures Newlines(LivenessMessage(livenessCheckInterval, balanceCheckInterval, staleness)) == 2
  {
    IntToStringNoNewline(livenessCheckInterval);
    IntToStringNoNewline(balanceCheckInterval);
    IntToStringNoNewline(staleness);
    LivenessCaptionNoBreak();
    BalanceCaptionNoBreak();
    StalenessCaptionNoBreak();
    SecondsNoBreak();
    SecondsLineBreak();
    CaptionedNewlines("Liveness Check interval: ", IntToString(livenessCheckInterval), " seconds\n",
                      "Balance check interval: ", IntToString(balanceCheckInterval), " seconds\n",
                      "Time since last balance update: ", IntToString(staleness), " seconds");
  }

  /** The heartbeat a due liveness check posts when a webhook is configured. */
  function Heartbeat(due: bool, hooked: bool, livenessCheckInterval: int, balanceCheckInterval: int,
                     staleness: int): seq<string>
  {
    if due && hooked then [LivenessMessage(livenessCheckInterval, balanceCheckInterval, staleness)] else []
  }

  /**
   * The state `main` keeps across iterations, with the snapshot file it owns: `file` holds the
   * rows of the file (`None` while no file exists) and `fileModified` its modification time.
   */
  class Monitor {
    const accountInfo: AccountInfo
    const addresses: seq<Address>
    const livenessCheckInterval: int
    const balanceCheckInterval: int
    const sink: Sink
    var oldBalances: Snapshot
    var livenessTime: int
    var file: Option<seq<Row>>
    var fileModified: int

    /** The held snapshot is always what the snapshot file reads back to, or empty when there is no file. */
    ghost predicate Valid()
      reads this`oldBalances, this`file
    {
      && ValidInfo(accountInfo)
      && addresses == accountInfo.keys
      && oldBalances.Valid()
      && (file.None? ==> oldBalances == Empty())
      && (file.Some? ==> ReadRows(file.value) == Ok(oldBalances))
    }

    constructor (accountInfo: AccountInfo, oldBalances: Snapshot, file: Option<seq<Row>>, fileModified: int,
                 sink: Sink, livenessCheckInterval: int, balanceCheckInterval: int, now: int)
      requires ValidInfo(accountInfo) && oldBalances.Valid()
      requires file.None? ==> oldBalances == Empty()
      requires file.Some? ==> ReadRows(file.value) == Ok(oldBalances)
      ensures Valid()
      ensures this.accountInfo == accountInfo && addresses == accountInfo.keys && this.sink == sink
      ensures this.livenessCheckInterval == livenessCheckInterval
      ensures this.balanceCheckInterval == balanceCheckInterval
      ensures this.oldBalances == oldBalances && livenessTime == now
      ensures this.file == file && this.fileModified == fileModified
    {
      this.accountInfo := accountInfo;
      addresses := accountInfo.keys;
      this.livenessCheckInterval := livenessCheckInterval;
      this.balanceCheckInterval := balanceCheckInterval;
      this.sink := sink;
      this.oldBalances := oldBalances;
      livenessTime := now;
      this.file := file;
      this.fileModified := fileModified;
    }

    /**
     * The liveness check that opens each iteration. When it is due it stats the snapshot file,
     * which raises when there is none; otherwise it posts the heartbeat (with a webhook) and
     * restarts the timer.
     */
    method CheckLiveness(now: int) returns (r: Outcome<()>)
      requires Valid()
      modifies this`livenessTime, sink
      ensures Valid()
      ensures r.Raise? <==> now - old(livenessTime) >= livenessCheckInterval && file.None?
      ensures r.Raise? ==> livenessTime == old(livenessTime) && sink.sent == old(sink.sent)
      ensures r.Return? ==>
                var due := now - old(livenessTime) >= livenessCheckInterval;
                && livenessTime == (if due then now else old(livenessTime))
                && sink.sent == old(sink.sent) + Heartbeat(due, sink.webhook.Some?, livenessCheckInterval, balanceCheckInterval,
                                                        now - old(fileModified))
    {
      r := Return(());
      if now - livenessTime >= livenessCheckInterval {
        if file.None? {
          r := Raise("FileNotFoundError: the snapshot file does not exist");
          return;
        }
        var message := LivenessMessage(livenessCheckInterval, balanceCheckInterval, now - fileModified);
        if sink.webhook.Some? {
          var _ := sink.Send(message);
        }
        livenessTime := now;
      }
    }

    /**
     * A successful fetch: alert on the decreases against the held snapshot, write the new
     * snapshot to the file and hold it.
     */
    method Record(latestBalances: Snapshot, now: int)
      requires Valid() && latestBalances.Valid()
      requires forall k :: k in latestBalances.keys ==> k in accountInfo.values
      modifies this`oldBalances, this`file, this`fileModified, sink
      ensures Valid()
      ensures oldBalances == latestBalances && file == Some(BalanceRows(latestBalances)) && fileModified == now
      ensures sink.sent == old(sink.sent) +
                CompareAlerts(old(oldBalances), latestBalances.keys, latestBalances.values, accountInfo,
                              sink.webhook.Some?)
    {
      CompareBalances(oldBalances, latestBalances, accountInfo, sink);
      var rows := WriteBalancesToFile(latestBalances);
      file := Some(rows);
      fileModified := now;
      ReadWriteRoundTrip(latestBalances);
      oldBalances := latestBalances;
    }

    /**
     * The fetch that follows: on success the new balances are compared with the held ones,
     * written to the file and held; on failure the held snapshot and the file stay as they
     * were and the failure is reported, which raises without a webhook.
     */
    method PollBalances(now: int, rpc: Rpc) returns (r: Outcome<()>)
      requires Valid()
      modifies this`oldBalances, this`file, this`fileModified, sink
      ensures Valid()
      ensures FetchAll(Batches(addresses), rpc).Ok? ==>
                && r == Return(())
                && oldBalances == ZipDict(addresses, FetchAll(Batches(addresses), rpc).value)
                && oldBalances.keys <= addresses
                && (forall k :: k in oldBalances.keys ==> k in accountInfo.values)
                && file == Some(BalanceRows(oldBalances)) && fileModified == now
                && sink.sent == old(sink.sent) +
                     CompareAlerts(old(oldBalances), oldBalances.keys, oldBalances.values, accountInfo,
                                   sink.webhook.Some?)
      ensures FetchAll(Batches(addresses), rpc).Err? ==>
                && oldBalances == old(oldBalances) && file == old(file) && fileModified == old(fileModified)
                && (sink.webhook.Some? ==>
                      r == Return(()) &&
                      sink.sent == old(sink.sent) + [FetchAll(Batches(addresses), rpc).error, FetchFailedMessage])
                && (sink.webhook.None? ==> r.Raise? && sink.sent == old(sink.sent))
    {
      var latest := GetLatestBalances(addresses, rpc, sink);
      match latest {
        case Raise(e) =>
          r := Raise(e);
        case Return(Some(latestBalances)) =>
          ZipDictSpec(addresses, FetchAll(Batches(addresses), rpc).value);
          Record(latestBalances, now);
          r := Return(());
        case Return(None) =>
          // Without a webhook the fetch error has already raised inside GetLatestBalances.
          var delivered := sink.Send(FetchFailedMessage);
          assert delivered;
          r := Return(());
      }
    }

    /** One iteration of the `while True` loop of `main`, at clock reading `now`. */
    method Step(now: int, rpc: Rpc) returns (r: Outcome<()>)
      requires Valid()
      modifies this, sink
      ensures Valid()
      ensures now - old(livenessTime) >= livenessCheckInterval && old(file).None? ==>
                r.Raise? && livenessTime == old(livenessTime) && sink.sent == old(sink.sent)
                && oldBalances == old(oldBalances) && file == old(file) && fileModified == old(fileModified)
      ensures !(now - old(livenessTime) >= livenessCheckInterval && old(file).None?) ==>
                livenessTime == (if now - old(livenessTime) >= livenessCheckInterval then now else old(livenessTime))
      ensures !(now - old(livenessTime) >= livenessCheckInterval && old(file).None?) &&
              FetchAll(Batches(addresses), rpc).Ok? ==>
                && r == Return(())
                && oldBalances == ZipDict(addresses, FetchAll(Batches(addresses), rpc).value)
                && file == Some(BalanceRows(oldBalances)) && fileModified == now
                && oldBalances.keys <= addresses
                && (forall k :: k in oldBalances.keys ==> k in accountInfo.values)
      ensures !(now - old(livenessTime) >= livenessCheckInterval && old(file).None?) &&
              FetchAll(Batches(addresses), rpc).Ok? ==>
                sink.sent == old(sink.sent) + Heartbeat(now - old(livenessTime) >= livenessCheckInterval, sink.webhook.Some?,
                                                   livenessCheckInterval, balanceCheckInterval, now - old(fileModified))
                  + CompareAlerts(old(oldBalances), oldBalances.keys, oldBalances.values, accountInfo, sink.webhook.Some?)
      ensures !(now - old(livenessTime) >= livenessCheckInterval && old(file).None?) &&
              FetchAll(Batches(addresses), rpc).Err? ==>
                && oldBalances == old(oldBalances) && file == old(file) && fileModified == old(fileModified)
                && (r.Return? <==> sink.webhook.Some?)
                && sink.sent == old(sink.sent) + Heartbeat(now - old(livenessTime) >= livenessCheckInterval, sink.webhook.Some?,
                                                   livenessCheckInterval, balanceCheckInterval, now - old(fileModified))
                  + (if sink.webhook.Some? then [FetchAll(Batches(addresses), rpc).error, FetchFailedMessage] else [])
    {
      ghost var sent0, modified0 := sink.sent, fileModified;
      r := CheckLiveness(now);
      if r.Raise? {
        return;
      }
      ghost var sent1 := sink.sent;
      assert sent1 == sent0 + Heartbeat(now - old(livenessTime) >= livenessCheckInterval, sink.webhook.Some?,
                                      livenessCheckInterval, balanceCheckInterval, now - modified0);
      r := PollBalances(now, rpc);
    }
  }

  /**
   * Startup in `main`: load the registry, load the prior snapshot when its file exists, and,
   * with a webhook, announce the start and the known balances. A malformed registry or
   * snapshot file raises.
   */
  method Start(registryRows: seq<Row>, file: Option<seq<Row>>, fileModified: int, sink: Sink,
               livenessCheckInterval: int, balanceCheckInterval: int, now: int)
    returns (r: Outcome<Monitor>)
    requires ValidRows(registryRows)
    modifies sink
    ensures r.Return? <==> RegistryFromRows(registryRows).Ok? && (file.Some? ==> ReadRows(file.value).Ok?)
    ensures r.Raise? ==> sink.sent == old(sink.sent)
    ensures r.Return? ==>
              var m := r.value;
              var known := if file.Some? then ReadRows(file.value).value else Empty();
              && fresh(m) && m.Valid() && m.sink == sink
              && m.accountInfo == RegistryFromRows(registryRows).value
              && m.oldBalances == known && m.livenessTime == now
              && m.file == file && m.fileModified == fileModified
              && m.livenessCheckInterval == livenessCheckInterval
              && m.balanceCheckInterval == balanceCheckInterval
              && sink.sent == old(sink.sent) + (if sink.webhook.Some? then [StartupMessage, AllBalancesText(known)] else [])
  {
    var loaded := GetDictFromCsv(registryRows);
    if loaded.Err? {
      r := Raise(loaded.error);
      return;
    }
    var accountInfo := loaded.value;
    RegistryValid(registryRows);
    var oldBalances: Snapshot := Empty();
    if file.Some? {
      var read := ReadBalancesFromFile(file.value);
      if read.Err? {
        r := Raise(read.error);
        return;
      }
      oldBalances := read.value;
      ReadRowsOk(file.value);
      ReadRowsValue(file.value);
    }
    if sink.webhook.Some? {
      var _ := sink.Send(StartupMessage);
      PublishAllBalancesToSlack(oldBalances, sink);
    }
    var m := new Monitor(accountInfo, oldBalances, file, fileModified, sink,
                         livenessCheckInterval, balanceCheckInterval, now);
    r := Return(m);
  }
}
