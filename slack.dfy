/**
 * The alert sink and the payloads sent to it: `send_message_to_slack`,
 * `publish_account_info_to_slack` and `publish_all_balances_to_slack`.
 */
module Slack {
  import opened Base
  import opened Decimal
  import opened Dicts
  import opened SnapshotStore
  import opened Registry

  /**
   * The Slack webhook, seen as the log of texts it has been sent. Posting to an unconfigured
   * webhook (`webhook_url` is `None`) raises in `requests.post`; a configured webhook is taken
   * to answer 200.
   */
  class Sink {
    const webhook: Option<string>
    var sent: seq<string>

    constructor (webhook: Option<string>)
      ensures this.webhook == webhook && sent == []
    {
      this.webhook := webhook;
      sent := [];
    }

    /** `send_message_to_slack`: `delivered` is false when the post raised, and nothing was sent. */
    method Send(text: string) returns (delivered: bool)
      modifies this
      ensures delivered <==> webhook.Some?
      ensures sent == if delivered then old(sent) + [text] else old(sent)
    {
      delivered := webhook.Some?;
      if delivered {
        sent := sent + [text];
      }
    }
  }

  /** The number of line breaks in a text. */
  function Newlines(s: string): nat
  {
    if s == [] then 0 else (if s[0] == '\n' then 1 else 0) + Newlines(s[1..])
  }

  lemma {:induction false} NewlinesConcat(a: string, b: string)
    ensures Newlines(a + b) == Newlines(a) + Newlines(b)
  {
    if a == [] {
      assert a + b == b;
    } else {
      assert (a + b)[0] == a[0] && (a + b)[1..] == a[1..] + b;
      NewlinesConcat(a[1..], b);
    }
  }

  lemma {:induction false} NoNewlines(s: string)
    requires '\n' !in s
    ensures Newlines(s) == 0
  {
    if s != [] {
      NoNewlines(s[1..]);
    }
  }

  /** `"\n%s: %s"` for one metadata field. */
  function FieldLine(k: string, v: string): string
  {
    "\n" + k + ": " + v
  }

  /** The lines of the metadata fields, in column order. */
  function FieldLines(keys: seq<string>, fields: map<string, string>): string
    requires forall k :: k in keys ==> k in fields
  {
    if keys == [] then ""
    else
      var k := keys[|keys| - 1];
      FieldLines(keys[..|keys| - 1], fields) + FieldLine(k, fields[k])
  }

  /** The payload `publish_account_info_to_slack` posts for one account. */
  function AccountInfoText(address: Address, metadata: Metadata): string
    requires metadata.Valid()
  {
    "```address: " + address + FieldLines(metadata.keys, metadata.values) + "```"
  }

  /** `` "`%s: %.2f`\n" `` for one address and its balance. */
  function BalanceLine(k: string, v: Lamports): string
  {
    "`" + k + ": " + SolTwoPlaces(v) + "`\n"
  }

  /** The lines of the balances, in dict order. */
  function BalanceLines(keys: seq<string>, balances: map<string, Lamports>): string
    requires forall k :: k in keys ==> k in balances
  {
    if keys == [] then ""
    else
      var k := keys[|keys| - 1];
      BalanceLines(keys[..|keys| - 1], balances) + BalanceLine(k, balances[k])
  }

  /** The payload `publish_all_balances_to_slack` posts. */
  function AllBalancesText(balances: Snapshot): string
    requires balances.Valid()
  {
    "\n" + BalanceLines(balances.keys, balances.values)
  }

  /** An account without metadata columns is reported as its address line alone. */
  lemma AccountInfoWithoutMetadata(address: Address, metadata: Metadata)
    requires metadata.Valid() && metadata.keys == []
    ensures AccountInfoText(address, metadata) == "```address: " + address + "```"
  {
  }

  lemma {:induction false} FieldLinesNewlines(keys: seq<string>, fields: map<string, string>)
    requires forall k :: k in keys ==> k in fields && '\n' !in k && '\n' !in fields[k]
    ensures Newlines(FieldLines(keys, fields)) == |keys|
  {
    if keys != [] {
      var k := keys[|keys| - 1];
      var init := keys[..|keys| - 1];
      FieldLinesNewlines(init, fields);
      NoNewlines(k);
      NoNewlines(": ");
      NoNewlines(fields[k]);
      NewlinesConcat("\n", k);
      NewlinesConcat("\n" + k, ": ");
      NewlinesConcat("\n" + k + ": ", fields[k]);
      NewlinesConcat(FieldLines(init, fields), FieldLine(k, fields[k]));
    }
  }

  /**
   * The account payload has one line for the address and one more per metadata field, when
   * neither the address nor any field contains a line break.
   */
  lemma AccountInfoLineCount(address: Address, metadata: Metadata)
    requires metadata.Valid() && '\n' !in address
    requires forall k :: k in metadata.values ==> '\n' !in k && '\n' !in metadata.values[k]
    ensures Newlines(AccountInfoText(address, metadata)) == |metadata.keys|
  {
    var lines := FieldLines(metadata.keys, metadata.values);
    FieldLinesNewlines(metadata.keys, metadata.values);
    NoNewlines("```address: " + address);
    NoNewlines("```");
    NewlinesConcat("```address: " + address, lines);
    NewlinesConcat("```address: " + address + lines, "```");
  }

  lemma {:induction false} BalanceLinesNewlines(keys: seq<string>, balances: map<string, Lamports>)
    requires forall k :: k in keys ==> k in balances && '\n' !in k
    ensures Newlines(BalanceLines(keys, balances)) == |keys|
  {
    if keys != [] {
      var k := keys[|keys| - 1];
      var init := keys[..|keys| - 1];
      var amount := SolTwoPlaces(balances[k]);
      BalanceLinesNewlines(init, balances);
      NoNewlines(k);
      NoNewlines("`");
      NoNewlines(": ");
      assert '\n' !in amount by {
        forall i | 0 <= i < |amount| ensures amount[i] != '\n' { }
      }
      NoNewlines(amount);
      NewlinesConcat("`", k);
      NewlinesConcat("`" + k, ": ");
      NewlinesConcat("`" + k + ": ", amount);
      NewlinesConcat("`" + k + ": " + amount, "`\n");
      NewlinesConcat(BalanceLines(init, balances), BalanceLine(k, balances[k]));
    }
  }

  /** The baseline announcement has a leading line break and then one line per address. */
  lemma AllBalancesLineCount(balances: Snapshot)
    requires balances.Valid()
    requires forall k :: k in balances.values ==> '\n' !in k
    ensures Newlines(AllBalancesText(balances)) == 1 + |balances.keys|
  {
    BalanceLinesNewlines(balances.keys, balances.values);
    NewlinesConcat("\n", BalanceLines(balances.keys, balances.values));
  }

  /** Builds the account payload with `+=` over the metadata items. */
  method AccountInfoPayload(address: Address, metadata: Metadata) returns (payload: string)
    requires metadata.Valid()
    ensures payload == AccountInfoText(address, metadata)
  {
    payload := "```address: " + address;
    var j := 0;
    while j < |metadata.keys|
      invariant 0 <= j <= |metadata.keys|
      invariant payload == "```address: " + address + FieldLines(metadata.keys[..j], metadata.values)
    {
      var k := metadata.keys[j];
      assert metadata.keys[..j + 1][..j] == metadata.keys[..j];
      payload := payload + FieldLine(k, metadata.values[k]);
      j := j + 1;
    }
    assert metadata.keys[..j] == metadata.keys;
    payload := payload + "```";
  }

  /** Appending one balance line to the payload extends it by that line. */
  lemma AllBalancesNext(balances: Snapshot, j: nat)
    requires balances.Valid() && j < |balances.keys|
    ensures forall k :: k in balances.keys[..j] ==> k in balances.values
    ensures forall k :: k in balances.keys[..j + 1] ==> k in balances.values
    ensures "\n" + BalanceLines(balances.keys[..j + 1], balances.values)
         == "\n" + BalanceLines(balances.keys[..j], balances.values)
              + BalanceLine(balances.keys[j], balances.values[balances.keys[j]])
  {
    var keys := balances.keys;
    assert keys[..j + 1][..j] == keys[..j];
    var lines := BalanceLines(keys[..j], balances.values);
    var line := BalanceLine(keys[j], balances.values[keys[j]]);
    assert BalanceLines(keys[..j + 1], balances.values) == lines + line;
    assert "\n" + (lines + line) == "\n" + lines + line;
  }

  /** Builds the balances payload with `+=` over the snapshot items. */
  method AllBalancesPayload(balances: Snapshot) returns (payload: string)
    requires balances.Valid()
    ensures payload == AllBalancesText(balances)
  {
    payload := "\n";
    var j := 0;
    assert BalanceLines(balances.keys[..0], balances.values) == "";
    while j < |balances.keys|
      invariant 0 <= j <= |balances.keys|
      invariant forall k :: k in balances.keys[..j] ==> k in balances.values
      invariant payload == "\n" + BalanceLines(balances.keys[..j], balances.values)
    {
      var k := balances.keys[j];
      AllBalancesNext(balances, j);
      payload := payload + BalanceLine(k, balances.values[k]);
      j := j + 1;
    }
    assert balances.keys[..j] == balances.keys;
  }

  /** `publish_account_info_to_slack`: posts the metadata of one account. */
  method PublishAccountInfoToSlack(address: Address, accountInfo: AccountInfo, sink: Sink)
    requires ValidInfo(accountInfo) && address in accountInfo.values
    requires sink.webhook.Some?
    modifies sink
    ensures sink.sent == old(sink.sent) + [AccountInfoText(address, accountInfo.values[address])]
  {
    var payload := AccountInfoPayload(address, accountInfo.values[address]);
    var _ := sink.Send(payload);
  }

  /** `publish_all_balances_to_slack`: posts every address with its balance. */
  method PublishAllBalancesToSlack(balances: Snapshot, sink: Sink)
    requires balances.Valid()
    requires sink.webhook.Some?
    modifies sink
    ensures sink.sent == old(sink.sent) + [AllBalancesText(balances)]
  {
    var payload := AllBalancesPayload(balances);
    var _ := sink.Send(payload);
  }
}
