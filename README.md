# Account monitor, modelled in Dafny

`account-monitor/monitor-accounts.py` watches a list of Solana accounts. It loads a registry of
addresses (with free-form metadata columns) from a CSV file and asks an RPC node for their
balances in `getMultipleAccounts` batches of at most 100 addresses. It compares each balance with
the previous snapshot, posts an alert to a Slack webhook when a balance went down, writes the new
snapshot to a CSV file and sleeps. Every liveness interval it also posts a heartbeat.

The project models that program's core:

- `base.dfy` holds the `Option`, `Result` and `Outcome` datatypes. `Outcome.Raise` is a Python
  exception that escapes to the top of the process.
- `decimal.dfy` writes and parses decimal numerals. It also covers the `%d` and `%.2f` renderings
  of a SOL amount.
- `dicts.dfy` models Python's insertion-ordered `dict`:
  - `d[k] = v` keeps an existing key's place and appends a new one;
  - `pop` removes a present key;
  - building a dict by a sequence of assignments is `PutAll`.
- `snapshot_store.dfy` models `write_balances_to_file` and `read_balances_from_file` on the rows
  `csv.DictReader` yields. It proves that reading back what was written gives the same snapshot.
- `registry.dfy` models `get_dict_from_csv`.
- `slack.dfy` models the webhook as a `Sink` object that records what it was sent. It also
  holds the two payload builders and their publishers.
- `fetcher.dfy` models `get_latest_balances`:
  - the batching loop, against an RPC oracle `Batch -> RpcReply`;
  - the conversion of reply entries (an absent account counts as 0);
  - the positional `zip` into a dict;
  - the error report.
- `change_detector.dfy` models `compare_balances`.
- `monitor.dfy` models the startup of `main` and one iteration of its `while True` loop. The
  iteration is a liveness check followed by a poll, as a `Monitor` object. The object's
  invariant is that the held snapshot is exactly what the snapshot file reads back to, or empty
  while no file exists.

Balances are whole lamports (`nat`). The source divides by 10^9 into a float. Where it prints
`%d` of that float, the model prints the truncated quotient. Where it prints `%.2f`, the model
rounds to hundredths, half up.

Two behaviours of the code are easy to miss:

- A failed fetch is not always survived. When no webhook is configured, the error report at
  line 75 calls `requests.post(None)`. That raises out of the `except` clause, so the process
  stops before it reaches the warning at line 236. The model returns `Raise` there.
- A liveness check that falls due before any snapshot file exists raises `FileNotFoundError`
  from `stat()` (line 216). This happens, for instance, when every fetch so far has failed. The
  model returns `Raise` there too.

The model follows the code in both cases.

## Model

| member | source | states |
|---|---|---|
| Decimal.ParseNatToString | account-monitor/monitor-accounts.py:12-28 | a balance written out as a numeral parses back to the same number, so the snapshot file loses nothing |
| Decimal.WholeSol | account-monitor/monitor-accounts.py:99-105 | the `%d` rendering of a balance is a numeral, without a leading zero, whose value is the whole SOL in it (lamports divided by 10^9, truncated) |
| Decimal.NatToString | account-monitor/monitor-accounts.py:17 | a number is written as a non-empty run of digits, with no leading zero unless the number is zero |
| Decimal.ParseNat | account-monitor/monitor-accounts.py:26 | parsing succeeds exactly on a non-empty run of digits |
| Decimal.Hundredths | account-monitor/monitor-accounts.py:148 | a balance in hundredths of a SOL lies within half a hundredth of the exact amount, a tie going up |
| Decimal.SolTwoPlaces | account-monitor/monitor-accounts.py:148 | the `%.2f` rendering is a numeral of the whole SOL without a leading zero, a point and exactly two digits, whose values are the balance's rounded hundredths divided by 100 and their remainder |
| Dicts.Dict.Put | account-monitor/monitor-accounts.py:27 | assigning a key keeps the dict well formed: distinct keys, and the key order lists exactly the stored keys |
| Dicts.Dict.Pop | account-monitor/monitor-accounts.py:86 | popping a present key keeps the dict well formed |
| Dicts.Without | account-monitor/monitor-accounts.py:86 | removing a header leaves exactly the other headers, still distinct |
| Dicts.PutAllKeys | account-monitor/monitor-accounts.py:23-27 | the keys of a dict built by a run of assignments are exactly the keys assigned |
| Dicts.PutAllLastWins | account-monitor/monitor-accounts.py:23-27 | a key holds the value of its last assignment |
| Dicts.PutAllKeyOrder | account-monitor/monitor-accounts.py:71 | when every assignment names a new key, the dict's order is the order of assignment |
| Dicts.ItemsPutAll | account-monitor/monitor-accounts.py:16-17 | rebuilding a dict from its `items()` gives the same dict, order included |
| SnapshotStore.BalanceRows | account-monitor/monitor-accounts.py:12-17 | the file has one row per snapshot entry |
| SnapshotStore.WriteBalancesToFile | account-monitor/monitor-accounts.py:12-17 | the loop writes the row `address,balance` for each entry, in dict order |
| SnapshotStore.ReadBalancesFromFile | account-monitor/monitor-accounts.py:20-28 | the loop's result is the one `ReadRows` defines: the dict of the rows, or the exception of the first malformed row |
| SnapshotStore.ReadRowsErrorStops | account-monitor/monitor-accounts.py:24-27 | once a row raises, the rows after it change nothing |
| SnapshotStore.ReadRowsOk | account-monitor/monitor-accounts.py:24-27 | reading succeeds exactly when every row has both columns and a numeric balance |
| SnapshotStore.ReadRowsValue | account-monitor/monitor-accounts.py:20-28 | a file that reads is the dict its assignments `data[key] = val` build, so the last row for an address wins |
| SnapshotStore.ReadWriteRoundTrip | account-monitor/monitor-accounts.py:12-28 | reading the written file gives back the written snapshot, order included |
| Registry.MetadataOf | account-monitor/monitor-accounts.py:86-87 | `row.pop('address')` keeps every other column with its text and drops the address column; the metadata of a well-formed row is well formed |
| Registry.RegistryValid | account-monitor/monitor-accounts.py:81-88 | a registry loaded from well-formed rows is well formed, and no account's metadata holds an address column |
| Registry.GetDictFromCsv | account-monitor/monitor-accounts.py:81-88 | the loop's result is the one `RegistryFromRows` defines: the registry, or `KeyError` for the first row without an address |
| Registry.RegistryErrorStops | account-monitor/monitor-accounts.py:85-87 | once a row raises, the rows after it change nothing |
| Registry.RegistryOk | account-monitor/monitor-accounts.py:85-87 | loading succeeds exactly when every row has an address column |
| Registry.RegistryValue | account-monitor/monitor-accounts.py:81-88 | a loaded registry is the dict its assignments `data[key] = dict(row)` build |
| Registry.AddressOnlyRegistry | account-monitor/monitor-accounts.py:79-88 | a file whose only column is `address` loads, and every account gets empty metadata |
| Slack.Sink.Send | account-monitor/monitor-accounts.py:122-128 | a post is delivered and recorded exactly when a webhook is configured; otherwise nothing is sent |
| Slack.AccountInfoWithoutMetadata | account-monitor/monitor-accounts.py:136-140 | an account without metadata is posted as its address line alone |
| Slack.AccountInfoLineCount | account-monitor/monitor-accounts.py:136-140 | the account payload has one line break per metadata field |
| Slack.AccountInfoPayload | account-monitor/monitor-accounts.py:136-140 | building the payload with `+=` gives the address line and then one `key: value` line per field, in column order |
| Slack.PublishAccountInfoToSlack | account-monitor/monitor-accounts.py:136-142 | exactly one post is sent: that account's payload |
| Slack.AllBalancesLineCount | account-monitor/monitor-accounts.py:145-148 | the balances payload has a leading line break and one line per address |
| Slack.AllBalancesPayload | account-monitor/monitor-accounts.py:145-148 | building the payload with `+=` gives a line break and then one `` `address: amount` `` line per entry, in dict order |
| Slack.PublishAllBalancesToSlack | account-monitor/monitor-accounts.py:145-150 | exactly one post is sent: the balances payload |
| Fetcher.BatchesFrom | account-monitor/monitor-accounts.py:38-44 | from any round on, the loop asks for at least one more slice |
| Fetcher.BatchesFromCount | account-monitor/monitor-accounts.py:37-44 | from round `i` on, n addresses left take ceil(n/100) calls, and none left takes one call |
| Fetcher.BatchesFromAt | account-monitor/monitor-accounts.py:38-44 | from round `i` on, slice `k` covers the addresses from 100(i+k) up to 100(i+k+1) or the end |
| Fetcher.BatchesFromFlatten | account-monitor/monitor-accounts.py:38-44 | from round `i` on, the slices put together are the rest of the list from 100 i |
| Fetcher.BatchesSpec | account-monitor/monitor-accounts.py:38-44 | n addresses take ceil(n/100) calls, and an empty list takes one call with an empty slice; slices are consecutive, at most 100 long, and put together are the list in order |
| Fetcher.Converted | account-monitor/monitor-accounts.py:60-64 | one balance per reply entry, in reply order: 0 for an absent account, its lamports otherwise |
| Fetcher.AppendBalances | account-monitor/monitor-accounts.py:60-64 | the inner loop appends exactly the converted reply to the balances collected so far |
| Fetcher.FetchAllErrorStops | account-monitor/monitor-accounts.py:58-76 | once a call raises, the later batches change nothing |
| Fetcher.FetchAllError | account-monitor/monitor-accounts.py:58-76 | the fetch succeeds exactly when every call succeeds; a failed fetch carries the error of the first call that failed |
| Fetcher.FetchRound | account-monitor/monitor-accounts.py:38-68 | one round cuts the next slice of the batching; a failed call decides the whole fetch, a successful one appends its converted reply |
| Fetcher.FetchBalances | account-monitor/monitor-accounts.py:31-70 | the loop computes `FetchAll` over the batches; it issues every batch in order when it succeeds. When it fails, it stops right after the first failing call: every call issued before that one was answered |
| Fetcher.Zip | account-monitor/monitor-accounts.py:71 | `zip` pairs as many addresses as the shorter list has |
| Fetcher.ZipDict | account-monitor/monitor-accounts.py:71 | the comprehension gives a well-formed dict |
| Fetcher.ZipDictSpec | account-monitor/monitor-accounts.py:71 | with distinct addresses: the keys are the first min(n, m) addresses in order, and each holds the balance at its own position |
| Fetcher.Lookup | account-monitor/monitor-accounts.py:58-60 | a node answering from a ledger gives one entry per requested address |
| Fetcher.ConvertedConcat | account-monitor/monitor-accounts.py:60-64 | converting two replies one after the other equals converting them joined |
| Fetcher.LedgerFetchAll | account-monitor/monitor-accounts.py:38-70 | against a node that answers every batch from one ledger, the fetch gives the converted ledger entries of all the addresses, in order |
| Fetcher.LedgerSnapshot | account-monitor/monitor-accounts.py:31-71 | against such a node the fetch succeeds, every registry address is a key in registry order, and each holds its own balance (0 for an absent account) |
| Fetcher.GetLatestBalances | account-monitor/monitor-accounts.py:31-76 | success returns the snapshot and sends nothing. A failure with a webhook returns `None` after posting the error text. A failure without one raises |
| ChangeDetector.ClassifyCases | account-monitor/monitor-accounts.py:95-112 | each address takes exactly one of the four branches: decreased, increased, unchanged, not in the previous snapshot |
| ChangeDetector.DecreasedAddresses | account-monitor/monitor-accounts.py:95-103 | an address counts as decreased exactly when it is in the previous snapshot with a larger balance |
| ChangeDetector.CompareAlertsUnhooked | account-monitor/monitor-accounts.py:95-119 | without a webhook the loop sends nothing |
| ChangeDetector.CompareAlertsHooked | account-monitor/monitor-accounts.py:95-119 | with a webhook the loop sends the two alerts of each decreased address, in snapshot order, and every decreased address is registered |
| ChangeDetector.DecreaseAlertsOfIndex | account-monitor/monitor-accounts.py:115-119 | the alerts of the `j`th decreased address are its change message at position 2j and its metadata dump at 2j+1 |
| ChangeDetector.CompareAlertsSpec | account-monitor/monitor-accounts.py:95-119 | without a webhook nothing is sent. With one, exactly two posts go out per decreased address, in snapshot order: the change message, then the account's metadata. Nothing is sent for other addresses |
| ChangeDetector.ScenarioDecreasedText | account-monitor/monitor-accounts.py:99-100 | a drop from 10 to 8 SOL is worded `Balance of A has decreased from 10 to 8 SOL` |
| ChangeDetector.DecreaseScenario | account-monitor/monitor-accounts.py:95-119 | with A dropping, B unchanged and C new, only A's message and its bare address line are sent |
| ChangeDetector.DescribeChange | account-monitor/monitor-accounts.py:96-112 | the branches word the change as `ChangeMessage` does, and mark it for sending exactly when the balance decreased |
| ChangeDetector.AlertOn | account-monitor/monitor-accounts.py:96-119 | for one address, the change message and its metadata are posted exactly when a webhook is set and the balance decreased |
| ChangeDetector.CompareBalances | account-monitor/monitor-accounts.py:91-119 | the loop sends exactly the alerts `CompareAlerts` defines |
| Monitor.LivenessMessageLines | account-monitor/monitor-accounts.py:210-216 | the heartbeat is three lines, whatever its three figures are |
| Monitor.Monitor.CheckLiveness | account-monitor/monitor-accounts.py:209-220 | when the check is due and no snapshot file exists, it raises. When due otherwise, it posts the heartbeat (with a webhook) and restarts the timer. When not due, nothing changes. The invariant is kept |
| Monitor.Monitor.Record | account-monitor/monitor-accounts.py:225-232 | after a successful fetch the alerts are sent, the file holds the new snapshot, and the new snapshot is held; the invariant is kept |
| Monitor.Monitor.PollBalances | account-monitor/monitor-accounts.py:222-236 | after a successful fetch: the held snapshot is the fetched one, the file holds it, and the alerts are sent. After a failure: the snapshot and the file are unchanged, and the error is reported or raises without a webhook. The invariant that the held snapshot reads back from the file is kept |
| Monitor.Monitor.Step | account-monitor/monitor-accounts.py:208-238 | one iteration is the liveness check and then the poll. Its whole new state and every post are stated for each case: the liveness raise, fetch success, and fetch failure with and without a webhook |
| Monitor.Start | account-monitor/monitor-accounts.py:193-206 | startup succeeds exactly when the registry and any existing snapshot file read. The monitor then holds what was read, with the snapshot empty when there is no file. With a webhook the start message and the balances follow; on failure nothing is sent |

## Left out

- HTTP transport, JSON encoding and the 60-second timeout are not modelled. The RPC node is the oracle `Rpc`. Every exception one call can raise (a network failure or timeout, a body that is not JSON, a missing `result`, `value` or `lamports` field) is one `RpcError`. Line 58 never checks the HTTP status, and neither does the model.
- Slack.Sink.Send: a configured webhook is taken to answer 200. The `ValueError` for another status (lines 129-133) is not modelled.
- Fetcher.GetLatestBalances: the exception raised without a webhook carries a placeholder text (`MissingSchema`), not the exact message of the `requests` library.
- Slack.PublishAccountInfoToSlack and Slack.PublishAllBalancesToSlack require a configured webhook and, for the first, a registered address. Their only callers guarantee both, so the exceptions the source would raise otherwise are not modelled.
- ChangeDetector.CompareBalances requires every decreased address to be in the registry. In `main` the new snapshot's keys are registry addresses, so the `KeyError` from `account_info[address]` cannot occur there and is not modelled.
- Floating point is not modelled. Balances are exact lamports.
  - The source compares floats of SOL. From 2^23 SOL (about 8.39·10^15 lamports) on, adjacent lamport amounts give the same float, so two balances that differ here can compare equal there.
- Decimal.SolTwoPlaces: `%.2f` rounds the binary float of SOL; the model rounds the exact lamport amount half up, so a few amounts next to a half hundredth print one hundredth apart.
- Monitor.LivenessMessageLines: states only the heartbeat's three-line shape. Its wording is `LivenessMessage`, which `CheckLiveness` is proved to post.
- The snapshot file holds the balance as a decimal numeral of lamports. The source writes `str()` of a SOL float.
- Reading a balance accepts only a non-empty run of digits. `float()` also accepts signs, decimal points, exponents, spaces, `nan` and `inf`.
- CSV syntax is not modelled: quoting, escaping, the header line, and rows with missing or extra fields, which `DictReader` fills with `None`. A file is given as the rows `DictReader` yields.
- `os.path.isfile`, `open` and `stat` are not modelled as system calls. The snapshot file is `Option<seq<Row>>` plus a modification time.
- Clocks and sleeping are not modelled: `time.time()`, `time.sleep` and the unbounded `while True`.
  - The caller supplies one clock reading `now` per iteration. The separate readings at lines 209, 215 and 220 collapse into it.
  - The snapshot file's modification time is that same reading: `Record` sets `fileModified` to `now`. The source's write at line 231 happens after the fetch and the alerts, so its real modification time is later, and the staleness in the next heartbeat is correspondingly smaller than the model's.
  - The heartbeat's elapsed seconds are integer differences, not truncated float differences.
  - A caller repeats `Step` to run the loop.
- `logging` is not modelled, and neither are the level-dependent log lines.
- `argparse` and its defaults are not modelled (`http://api.mainnet-beta.solana.com`, `accounts.csv`, `latest_balances.csv`, 60 and 3600 seconds). `Start` takes the parsed values as parameters.
