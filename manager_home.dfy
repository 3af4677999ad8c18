/** The manager's home screen: the vaults being unvaulted, the spend
    transactions the daemon knows of, the (active, inactive) balance and the
    block height. A vault or a spend transaction can be selected. */
module ManagerHome {
  import opened Model
  import opened VaultWidget
  import opened Selection
  import opened Balances

  datatype ManagerHomeView = ManagerHomeView(
    balance: (nat, nat),
    blockheight: nat,
    warning: Option<string>,
    unvaultingVaults: seq<Vault>,
    selected: Option<VaultView>,
    spendTxs: seq<SpendTx>,
    selectedSpendTx: Option<Psbt>)

  function NewManagerHome(): ManagerHomeView {
    ManagerHomeView((0, 0), 0, None, [], None, [], None)
  }

  function ManagerHomeLoad(): Command {
    Batch([GetBlockHeight, ListVaults(None), ListSpendTxs])
  }

  /** The daemon lists a spend transaction for this unsigned transaction. */
  predicate ListsTxid(txs: seq<SpendTx>, txid: Txid) {
    exists i :: 0 <= i < |txs| && txs[i].psbt.unsignedTxid == txid
  }

  /** `on_spend_tx_select` on values: the same toggle as for vaults, keyed by
      the unsigned transaction id. */
  function SpendTxSelect(s: ManagerHomeView, psbt: Psbt): (ManagerHomeView, Command) {
    if s.selectedSpendTx.Some? && s.selectedSpendTx.value.unsignedTxid == psbt.unsignedTxid then
      (s.(selectedSpendTx := None), NoCommand)
    else if ListsTxid(s.spendTxs, psbt.unsignedTxid) then
      (s.(selectedSpendTx := Some(psbt)), LoadSpendTx(psbt))
    else (s, NoCommand)
  }

  function ManagerHomeUpdateVaults(s: ManagerHomeView, vs: seq<Vault>): ManagerHomeView {
    s.(balance := ManagerBalance(vs), unvaultingVaults := KeepWhere(vs, UnvaultingStatuses))
  }

  function ManagerHomeSelect(s: ManagerHomeView, outpoint: Outpoint): (ManagerHomeView, Command) {
    match ToggleOn(SelectedOutpoint(s.selected), s.unvaultingVaults, outpoint)
    case Deselect => (s.(selected := None), NoCommand)
    case SelectListed(v) => (s.(selected := Some(FreshVault(v))), GetOnchainTxs(v.outpoint))
    case Ignore => (s, NoCommand)
  }

  /** `ManagerHomeState::update` on values. */
  function ManagerHomeNext(s: ManagerHomeView, msg: Message, decode: string -> Option<Psbt>)
    : (ManagerHomeView, Command)
  {
    match msg
    case SpendTxMsg(m) =>
      if m.SelectTx? then SpendTxSelect(s, m.psbt)
      else if s.selectedSpendTx.Some? then (s, ForwardSpendTx(msg))
      else (s, NoCommand)
    case SpendTransactions(res) =>
      if res.Ok? then (s.(spendTxs := res.value), NoCommand) else (s.(warning := Some(res.error)), NoCommand)
    case Vaults(res) =>
      if res.Ok? then (ManagerHomeUpdateVaults(s, res.value), NoCommand)
      else (s.(warning := Some(res.error)), NoCommand)
    case VaultMsg(m) =>
      if m.Select? then ManagerHomeSelect(s, m.outpoint)
      else
        var (sel, cmd) := ForwardNext(s.selected, m, decode);
        (s.(selected := sel), cmd)
    case BlockHeight(res) =>
      if res.Ok? then (s.(blockheight := res.value), NoCommand) else (s.(warning := Some(res.error)), NoCommand)
    case _ => (s, NoCommand)
  }

  /** A vault snapshot lists exactly the vaults being unvaulted, in order, and
      balances the whole snapshot into the two buckets, which together miss
      only the other statuses. */
  lemma ManagerHomeSnapshot(s: ManagerHomeView, vs: seq<Vault>, decode: string -> Option<Psbt>)
    ensures var (next, cmd) := ManagerHomeNext(s, Vaults(Ok(vs)), decode);
            && cmd == NoCommand && next.selected == s.selected && next.spendTxs == s.spendTxs
            && (forall v :: v in next.unvaultingVaults <==> v in vs && v.status in UnvaultingStatuses)
            && next.balance.0 == Total(KeepWhere(vs, ActiveStatuses))
            && next.balance.1 == Total(KeepWhere(vs, InactiveStatuses))
            && next.balance.0 + next.balance.1 + SumWhere(vs, OtherStatuses) == Total(vs)
  {
    KeepWhereMembers(vs, UnvaultingStatuses);
    SumWhereIsTotalOfKept(vs, ActiveStatuses);
    SumWhereIsTotalOfKept(vs, InactiveStatuses);
    ManagerBalancePartition(vs);
  }

  /** Selecting a spend transaction: the selected one (same unsigned
      transaction) is deselected, a listed one is selected and loaded, any
      other changes nothing; nothing else changes. */
  lemma SpendTxSelectBehaviour(s: ManagerHomeView, psbt: Psbt, decode: string -> Option<Psbt>)
    ensures var (next, cmd) := ManagerHomeNext(s, SpendTxMsg(SelectTx(psbt)), decode);
            && next == s.(selectedSpendTx := next.selectedSpendTx)
            && (s.selectedSpendTx.Some? && s.selectedSpendTx.value.unsignedTxid == psbt.unsignedTxid ==>
                  next.selectedSpendTx.None? && cmd == NoCommand)
            && (!(s.selectedSpendTx.Some? && s.selectedSpendTx.value.unsignedTxid == psbt.unsignedTxid) ==>
                  (next.selectedSpendTx == Some(psbt) && cmd == LoadSpendTx(psbt)
                   <==> exists t :: t in s.spendTxs && t.psbt.unsignedTxid == psbt.unsignedTxid))
            && (next.selectedSpendTx.Some? && next.selectedSpendTx != s.selectedSpendTx ==>
                  ListsTxid(s.spendTxs, next.selectedSpendTx.value.unsignedTxid))
            && (!(s.selectedSpendTx.Some? && s.selectedSpendTx.value.unsignedTxid == psbt.unsignedTxid)
                && (forall t :: t in s.spendTxs ==> t.psbt.unsignedTxid != psbt.unsignedTxid) ==>
                  next == s && cmd == NoCommand)
  {
    var (next, cmd) := ManagerHomeNext(s, SpendTxMsg(SelectTx(psbt)), decode);
    if exists t :: t in s.spendTxs && t.psbt.unsignedTxid == psbt.unsignedTxid {
      var t :| t in s.spendTxs && t.psbt.unsignedTxid == psbt.unsignedTxid;
      var i :| 0 <= i < |s.spendTxs| && s.spendTxs[i] == t;
      assert ListsTxid(s.spendTxs, psbt.unsignedTxid);
    }
  }

  /** Spend-transaction messages reach the detail screen only when a spend
      transaction is selected. */
  lemma SpendTxForwardedOnlyWhenSelected(s: ManagerHomeView, m: SpendTxMessage, decode: string -> Option<Psbt>)
    requires !m.SelectTx?
    ensures s.selectedSpendTx.None? ==> ManagerHomeNext(s, SpendTxMsg(m), decode) == (s, NoCommand)
    ensures s.selectedSpendTx.Some? ==> ManagerHomeNext(s, SpendTxMsg(m), decode) == (s, ForwardSpendTx(SpendTxMsg(m)))
  {
  }

  lemma ManagerHomeKeepsInvariant(s: ManagerHomeView, msg: Message, decode: string -> Option<Psbt>)
    requires SelectionInvariant(s.selected)
    ensures SelectionInvariant(ManagerHomeNext(s, msg, decode).0.selected)
  {
    if msg.VaultMsg? {
      var found := if msg.vaultMsg.Select? then FindVault(s.unvaultingVaults, msg.vaultMsg.outpoint) else None;
      SelectionKeepsInvariant(s.selected, if found.Some? then found.value else Vault("", Funded, 0), msg.vaultMsg, decode);
    }
  }

  class ManagerHomeState {
    var balance: (nat, nat)
    var blockheight: nat
    var warning: Option<string>
    var unvaultingVaults: seq<Vault>
    var selected: Option<SelectedVault>
    var spendTxs: seq<SpendTx>
    var selectedSpendTx: Option<Psbt>
    ghost var Repr: set<object>

    ghost predicate Valid()
      reads this, Repr
    {
      && this in Repr
      && (selected.Some? ==> selected.value in Repr && selected.value.Repr <= Repr)
      && Owns(selected, this, Repr)
    }

    function View(): ManagerHomeView
      reads this, Repr
      requires Valid()
    {
      ManagerHomeView(balance, blockheight, warning, unvaultingVaults, ViewOf(selected), spendTxs, selectedSpendTx)
    }

    constructor ()
      ensures Valid() && fresh(Repr)
      ensures View() == NewManagerHome()
    {
      balance := (0, 0);
      blockheight := 0;
      unvaultingVaults := [];
      warning := None;
      selected := None;
      spendTxs := [];
      selectedSpendTx := None;
      Repr := {this};
    }

    method Load() returns (cmd: Command)
      ensures cmd == ManagerHomeLoad()
    {
      cmd := Batch([GetBlockHeight, ListVaults(None), ListSpendTxs]);
    }

    method UpdateSpendTxs(txs: seq<SpendTx>)
      requires Valid()
      modifies this
      ensures Valid() && Repr == old(Repr)
      ensures View() == old(View()).(spendTxs := txs)
    {
      spendTxs := txs;
    }

    method OnSpendTxSelect(psbt: Psbt) returns (cmd: Command)
      requires Valid()
      modifies this
      ensures Valid() && Repr == old(Repr)
      ensures (View(), cmd) == SpendTxSelect(old(View()), psbt)
    {
      cmd := NoCommand;
      if selectedSpendTx.Some? && selectedSpendTx.value.unsignedTxid == psbt.unsignedTxid {
        selectedSpendTx := None;
        return;
      }
      if ListsTxid(spendTxs, psbt.unsignedTxid) {
        selectedSpendTx := Some(psbt);
        cmd := LoadSpendTx(psbt);
      }
    }

    method CalculateBalance(vs: seq<Vault>)
      requires Valid()
      modifies this
      ensures Valid() && Repr == old(Repr)
      ensures View() == old(View()).(balance := ManagerBalance(vs))
    {
      var activeAmount: nat := 0;
      var inactiveAmount: nat := 0;
      for i := 0 to |vs|
        invariant activeAmount == SumWhere(vs[..i], ActiveStatuses)
        invariant inactiveAmount == SumWhere(vs[..i], InactiveStatuses)
      {
        assert vs[..i + 1][..i] == vs[..i];
        match vs[i].status
        case Active => activeAmount := activeAmount + vs[i].amount;
        case Unvaulting => activeAmount := activeAmount + vs[i].amount;
        case Unvaulted => activeAmount := activeAmount + vs[i].amount;
        case Secured => inactiveAmount := inactiveAmount + vs[i].amount;
        case Funded => inactiveAmount := inactiveAmount + vs[i].amount;
        case Unconfirmed => inactiveAmount := inactiveAmount + vs[i].amount;
        case _ =>
      }
      assert vs[..|vs|] == vs;
      balance := (activeAmount, inactiveAmount);
    }

    method UpdateVaults(vs: seq<Vault>)
      requires Valid()
      modifies this
      ensures Valid() && Repr == old(Repr)
      ensures View() == ManagerHomeUpdateVaults(old(View()), vs)
    {
      CalculateBalance(vs);
      unvaultingVaults := KeepWhere(vs, UnvaultingStatuses);
    }

    method OnVaultSelect(outpoint: Outpoint) returns (cmd: Command)
      requires Valid()
      modifies this
      ensures Valid() && fresh(Repr - old(Repr))
      ensures (View(), cmd) == ManagerHomeSelect(old(View()), outpoint)
    {
      cmd := NoCommand;
      if selected.Some? && selected.value.vault.outpoint == outpoint {
        selected := None;
        Repr := {this};
        return;
      }
      var found := FindVault(unvaultingVaults, outpoint);
      if found.Some? {
        var v := new SelectedVault(found.value);
        cmd := v.Load();
        selected := Some(v);
        Repr := {this} + v.Repr;
      }
    }

    method Update(msg: Message, decode: string -> Option<Psbt>) returns (cmd: Command)
      requires Valid()
      modifies Repr
      ensures Valid() && fresh(Repr - old(Repr))
      ensures (View(), cmd) == ManagerHomeNext(old(View()), msg, decode)
    {
      cmd := NoCommand;
      match msg
      case SpendTxMsg(m) =>
        if m.SelectTx? {
          cmd := OnSpendTxSelect(m.psbt);
        } else if selectedSpendTx.Some? {
          cmd := ForwardSpendTx(msg);
        }
      case SpendTransactions(res) =>
        if res.Ok? {
          UpdateSpendTxs(res.value);
        } else {
          warning := Some(res.error);
        }
      case Vaults(res) =>
        if res.Ok? {
          UpdateVaults(res.value);
        } else {
          warning := Some(res.error);
        }
      case VaultMsg(m) =>
        if m.Select? {
          cmd := OnVaultSelect(m.outpoint);
        } else if selected.Some? {
          cmd := selected.value.Update(m, decode);
          Repr := {this} + selected.value.Repr;
        }
      case BlockHeight(res) =>
        if res.Ok? {
          blockheight := res.value;
        } else {
          warning := Some(res.error);
        }
      case _ =>
    }
  }
}
