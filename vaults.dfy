/** The vault list screen: every vault of the daemon, the block height, and
    an optional selected vault. */
module VaultsScreen {
  import opened Model
  import opened VaultWidget
  import opened Selection

  datatype VaultsView = VaultsView(
    blockheight: nat,
    warning: Option<string>,
    vaults: seq<Vault>,
    selected: Option<VaultView>)

  function NewVaults(): VaultsView {
    VaultsView(0, None, [], None)
  }

  /** `VaultsState::load`. */
  function VaultsLoad(): Command {
    Batch([GetBlockHeight, ListVaults(None)])
  }

  /** `VaultsState::on_vault_select` on values. */
  function VaultsSelect(s: VaultsView, outpoint: Outpoint): (VaultsView, Command) {
    match ToggleOn(SelectedOutpoint(s.selected), s.vaults, outpoint)
    case Deselect => (s.(selected := None), NoCommand)
    case SelectListed(v) => (s.(selected := Some(FreshVault(v))), GetOnchainTxs(v.outpoint))
    case Ignore => (s, NoCommand)
  }

  /** `VaultsState::update` on values. */
  function VaultsNext(s: VaultsView, msg: Message, decode: string -> Option<Psbt>): (VaultsView, Command) {
    match msg
    case Vaults(res) =>
      if res.Ok? then (s.(vaults := res.value), NoCommand) else (s.(warning := Some(res.error)), NoCommand)
    case VaultMsg(m) =>
      if m.Select? then VaultsSelect(s, m.outpoint)
      else
        var (sel, cmd) := ForwardNext(s.selected, m, decode);
        (s.(selected := sel), cmd)
    case BlockHeight(res) =>
      if res.Ok? then (s.(blockheight := res.value), NoCommand) else (s.(warning := Some(res.error)), NoCommand)
    case _ => (s, NoCommand)
  }

  /** A new snapshot replaces the list in the daemon's order and keeps the
      selection and everything else. */
  lemma SnapshotKeepsSelection(s: VaultsView, vs: seq<Vault>, e: string, decode: string -> Option<Psbt>)
    ensures VaultsNext(s, Vaults(Ok(vs)), decode) == (s.(vaults := vs), NoCommand)
    ensures VaultsNext(s, Vaults(Err(e)), decode) == (s.(warning := Some(e)), NoCommand)
  {
  }

  /** Selecting: the selected vault is deselected; a listed vault becomes
      selected with an unloaded section and its transactions are requested;
      an unknown outpoint changes nothing. */
  lemma SelectBehaviour(s: VaultsView, outpoint: Outpoint, decode: string -> Option<Psbt>)
    ensures var (next, cmd) := VaultsNext(s, VaultMsg(Select(outpoint)), decode);
            && next.vaults == s.vaults && next.blockheight == s.blockheight && next.warning == s.warning
            && (SelectedOutpoint(s.selected) == Some(outpoint) ==> next.selected.None? && cmd == NoCommand)
            && (SelectedOutpoint(s.selected) != Some(outpoint) && (exists v :: v in s.vaults && v.outpoint == outpoint) ==>
                  next.selected.Some? && next.selected.value.vault in s.vaults
                  && next.selected.value == FreshVault(next.selected.value.vault)
                  && next.selected.value.vault.outpoint == outpoint
                  && cmd == GetOnchainTxs(outpoint))
            && (SelectedOutpoint(s.selected) != Some(outpoint) && (forall v :: v in s.vaults ==> v.outpoint != outpoint) ==>
                  next == s && cmd == NoCommand)
  {
  }

  /** The screen keeps the selected vault's invariant. */
  lemma VaultsNextKeepsInvariant(s: VaultsView, msg: Message, decode: string -> Option<Psbt>)
    requires SelectionInvariant(s.selected)
    ensures SelectionInvariant(VaultsNext(s, msg, decode).0.selected)
  {
    if msg.VaultMsg? && msg.vaultMsg.Select? {
      var t := ToggleOn(SelectedOutpoint(s.selected), s.vaults, msg.vaultMsg.outpoint);
      if t.SelectListed? {
        SelectionKeepsInvariant(s.selected, t.vault, msg.vaultMsg, decode);
      }
    } else if msg.VaultMsg? {
      SelectionKeepsInvariant(s.selected, Vault("", Funded, 0), msg.vaultMsg, decode);
    }
  }

  /** Block heights: an answer sets the height, a failure the warning. */
  lemma BlockHeightResponse(s: VaultsView, h: nat, e: string, decode: string -> Option<Psbt>)
    ensures VaultsNext(s, BlockHeight(Ok(h)), decode) == (s.(blockheight := h), NoCommand)
    ensures VaultsNext(s, BlockHeight(Err(e)), decode) == (s.(warning := Some(e)), NoCommand)
  {
  }

  class VaultsState {
    var blockheight: nat
    var warning: Option<string>
    var vaults: seq<Vault>
    var selected: Option<SelectedVault>
    ghost var Repr: set<object>

    ghost predicate Valid()
      reads this, Repr
    {
      && this in Repr
      && (selected.Some? ==> selected.value in Repr && selected.value.Repr <= Repr)
      && Owns(selected, this, Repr)
    }

    function View(): VaultsView
      reads this, Repr
      requires Valid()
    {
      VaultsView(blockheight, warning, vaults, ViewOf(selected))
    }

    constructor ()
      ensures Valid() && fresh(Repr)
      ensures View() == NewVaults()
    {
      blockheight := 0;
      warning := None;
      vaults := [];
      selected := None;
      Repr := {this};
    }

    method Load() returns (cmd: Command)
      ensures cmd == VaultsLoad()
    {
      cmd := Batch([GetBlockHeight, ListVaults(None)]);
    }

    method UpdateVaults(vs: seq<Vault>)
      requires Valid()
      modifies this
      ensures Valid() && Repr == old(Repr)
      ensures View() == old(View()).(vaults := vs)
    {
      vaults := vs;
    }

    method OnVaultSelect(outpoint: Outpoint) returns (cmd: Command)
      requires Valid()
      modifies this
      ensures Valid() && fresh(Repr - old(Repr))
      ensures (View(), cmd) == VaultsSelect(old(View()), outpoint)
    {
      cmd := NoCommand;
      if selected.Some? && selected.value.vault.outpoint == outpoint {
        selected := None;
        Repr := {this};
        return;
      }
      var found := FindVault(vaults, outpoint);
      if found.Some? {
        var v := new SelectedVault(found.value);
        cmd := v.Load();
        selected := Some(v);
        Repr := {this} + v.Repr;
      }
    }

    method Update(msg: Message, decode: string -> Option<Psbt>) returns (cmd: Command)
      requires Valid()
      modifies Repr
      ensures Valid() && fresh(Repr - old(Repr))
      ensures (View(), cmd) == VaultsNext(old(View()), msg, decode)
    {
      cmd := NoCommand;
      match msg
      case Vaults(res) =>
        if res.Ok? {
          UpdateVaults(res.value);
        } else {
          warning := Some(res.error);
        }
      case VaultMsg(m) =>
        if m.Select? {
          cmd := OnVaultSelect(m.outpoint);
        } else if selected.Some? {
          cmd := selected.value.Update(m, decode);
          Repr := {this} + selected.value.Repr;
        }
      case BlockHeight(res) =>
        if res.Ok? {
          blockheight := res.value;
        } else {
          warning := Some(res.error);
        }
      case _ =>
    }
  }
}
