/** The data the GUI state machines work on: the daemon's vault records and
    transactions, the messages the GUI reacts to, and the daemon calls it
    issues. A daemon call is not executed here: an `update` returns the
    `Command` it would perform, and the daemon's answer comes back later as
    another message. */
module Model {

  datatype Option<+T> = None | Some(value: T)

  /** A fallible daemon answer; a failure carries the daemon's error text. */
  datatype Result<+T> = Ok(value: T) | Err(error: string)

  type Txid = string
  type Outpoint = string

  /** A partially signed transaction. The GUI only ever inspects the id of its
      unsigned transaction; everything else (inputs, outputs, partial
      signatures) is carried as the opaque serialized remainder. */
  datatype Psbt = Psbt(unsignedTxid: Txid, payload: seq<bv8>)

  /** The daemon's vault status, server-authoritative. */
  datatype VaultStatus =
    | Unconfirmed | Funded | Securing | Secured | Activating | Active
    | Unvaulting | Unvaulted | Canceling | Canceled | EmergencyVaulting
    | EmergencyVaulted | Spending | Spent | Spendable

  /** A vault as listed by the daemon, identified by its deposit outpoint. */
  datatype Vault = Vault(outpoint: Outpoint, status: VaultStatus, amount: nat)

  datatype TransactionKind = Unvault | Emergency | EmergencyUnvault | Cancel | Spend

  /** The three unsigned revocation transactions of one vault. */
  datatype RevocationTransactions =
    RevocationTransactions(emergencyTx: Psbt, emergencyUnvaultTx: Psbt, cancelTx: Psbt)

  /** The on-chain transactions of a vault; only displayed. */
  datatype VaultTransactions = VaultTransactions(txids: seq<Txid>)

  /** A spend transaction known to the daemon. */
  datatype SpendTx = SpendTx(psbt: Psbt)

  /** The daemon's answer to a spend-transaction request. */
  datatype SpendTxProposal = SpendTxProposal(spendTx: Psbt, feerate: nat)

  datatype SignMessage =
    | Success
    | PsbtEdited(input: string)
    | Sign
    | ChangeMethod
    | Clipboard(text: string)

  datatype VaultMessage =
    | ListOnchainTransaction
    | OnChainTransactions(txs: Result<VaultTransactions>)
    | UnvaultTransaction(unvault: Result<Psbt>)
    | RevocationTransactionsLoaded(revocation: Result<RevocationTransactions>)
    | Delegate(outpoint: Outpoint)
    | Acknowledge(outpoint: Outpoint)
    | Select(outpoint: Outpoint)
    | Signed(signed: Result<()>)
    | SignMsg(sign: SignMessage)

  datatype SpendTxMessage =
    | Import
    | SelectTx(psbt: Psbt)
    | Generate
    | FeerateEdited(feerate: nat)
    | SpendSigned(signed: Result<()>)
    | SpendSign(sign: SignMessage)
    | Updated(updated: Result<()>)
    | ImportEdited(input: string)

  datatype RecipientMessage = Delete | AddressEdited(address: string) | AmountEdited(amount: string)

  datatype InputMessage = Selected(selected: bool)

  datatype VaultFilterMessage = Status(statuses: seq<VaultStatus>)

  /** The messages the GUI's screens react to. */
  datatype Message =
    | Vaults(vaults: Result<seq<Vault>>)
    | VaultMsg(vaultMsg: VaultMessage)
    | BlockHeight(height: Result<nat>)
    | SpendTransactions(spendTxs: Result<seq<SpendTx>>)
    | SpendTxMsg(spendMsg: SpendTxMessage)
    | SpendTransaction(proposal: Result<SpendTxProposal>)
    | Next
    | Previous
    | AddRecipient
    | Recipient(index: nat, recipientMsg: RecipientMessage)
    | Input(index: nat, inputMsg: InputMessage)
    | FilterVaults(filter: VaultFilterMessage)

  /** A daemon call the GUI issues (or the absence of one); `Batch` issues
      several at once. `LoadSpendTx` and `ForwardSpendTx` stand for the
      spend-transaction detail screen's own `load` and `update`, whose code
      is not part of this model. */
  datatype Command =
    | NoCommand
    | GetOnchainTxs(outpoint: Outpoint)
    | GetUnvaultTx(outpoint: Outpoint)
    | GetRevocationTxs(outpoint: Outpoint)
    | SetUnvaultTx(outpoint: Outpoint, unvaultTx: Psbt)
    | SetRevocationTxs(outpoint: Outpoint, emergencyTx: Psbt, emergencyUnvaultTx: Psbt, cancelTx: Psbt)
    | GetSpendTx(inputs: seq<Outpoint>, outputs: map<string, nat>, feerate: nat)
    | UpdateSpendTx(psbt: Psbt)
    | ListVaults(statuses: Option<seq<VaultStatus>>)
    | GetBlockHeight
    | ListSpendTxs
    | Batch(cmds: seq<Command>)
    | LoadSpendTx(psbt: Psbt)
    | ForwardSpendTx(msg: Message)

  /** The first listed vault with the given outpoint (`iter().find`). */
  function FindVault(vaults: seq<Vault>, outpoint: Outpoint): (r: Option<Vault>)
    ensures r.None? <==> forall v :: v in vaults ==> v.outpoint != outpoint
    ensures r.Some? ==> exists i :: 0 <= i < |vaults| && vaults[i] == r.value
                          && r.value.outpoint == outpoint
                          && forall j :: 0 <= j < i ==> vaults[j].outpoint != outpoint
  {
    if |vaults| == 0 then None
    else if vaults[0].outpoint == outpoint then Some(vaults[0])
    else
      var r := FindVault(vaults[1..], outpoint);
      assert forall v :: v in vaults ==> v == vaults[0] || v in vaults[1..];
      if r.Some? then
        var k :| 0 <= k < |vaults[1..]| && vaults[1..][k] == r.value && r.value.outpoint == outpoint
                 && forall j :: 0 <= j < k ==> vaults[1..][j].outpoint != outpoint;
        assert vaults[k + 1] == r.value;
        assert forall j :: 1 <= j < k + 1 ==> vaults[j] == vaults[1..][j - 1];
        r
      else r
  }

  /** `Vec::remove`: the list without its element at `i`. */
  function Remove<T>(xs: seq<T>, i: nat): (r: seq<T>)
    requires i < |xs|
    ensures |r| == |xs| - 1
    ensures forall k :: 0 <= k < i ==> r[k] == xs[k]
    ensures forall k :: i <= k < |r| ==> r[k] == xs[k + 1]
  {
    xs[..i] + xs[i + 1..]
  }
}
