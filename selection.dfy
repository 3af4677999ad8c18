/** What the vault-list screens share: clicking a vault's outpoint toggles
    the selection, and vault messages go to the selected vault if there is
    one. Each screen owns at most one selected-vault widget. */
module Selection {
  import opened Model
  import opened VaultWidget

  /** The effect of a click on an outpoint. */
  datatype Toggle = Deselect | SelectListed(vault: Vault) | Ignore

  /** A click on the selected vault deselects it; otherwise the first listed
      vault with that outpoint becomes selected; an unknown outpoint does
      nothing. */
  function ToggleOn(selectedOutpoint: Option<Outpoint>, listed: seq<Vault>, outpoint: Outpoint): (t: Toggle)
    ensures t.Deselect? <==> selectedOutpoint == Some(outpoint)
    ensures t.SelectListed? <==> selectedOutpoint != Some(outpoint) && exists v :: v in listed && v.outpoint == outpoint
    ensures t.SelectListed? ==> t.vault in listed && t.vault.outpoint == outpoint
    ensures t.SelectListed? ==> FindVault(listed, outpoint) == Some(t.vault)
  {
    if selectedOutpoint == Some(outpoint) then Deselect
    else
      match FindVault(listed, outpoint)
      case Some(v) => SelectListed(v)
      case None => Ignore
  }

  function SelectedOutpoint(sel: Option<VaultView>): Option<Outpoint> {
    if sel.Some? then Some(sel.value.vault.outpoint) else None
  }

  /** A vault message reaches the selected vault, if any. */
  function ForwardNext(sel: Option<VaultView>, msg: VaultMessage, decode: string -> Option<Psbt>)
    : (Option<VaultView>, Command)
  {
    match sel
    case None => (None, NoCommand)
    case Some(v) =>
      var (next, cmd) := VaultNext(v, msg, decode);
      (Some(next), cmd)
  }

  /** Every selected vault satisfies the section invariant. */
  predicate SelectionInvariant(sel: Option<VaultView>) {
    sel.Some? ==> SectionInvariant(sel.value.section)
  }

  /** Selecting a fresh vault and forwarding to it both keep the invariant,
      and neither changes which vault is selected. */
  lemma SelectionKeepsInvariant(sel: Option<VaultView>, v: Vault, msg: VaultMessage, decode: string -> Option<Psbt>)
    requires SelectionInvariant(sel)
    ensures SelectionInvariant(Some(FreshVault(v)))
    ensures SelectionInvariant(ForwardNext(sel, msg, decode).0)
    ensures SelectedOutpoint(ForwardNext(sel, msg, decode).0) == SelectedOutpoint(sel)
  {
    if sel.Some? {
      VaultNextKeepsInvariant(sel.value, msg, decode);
    }
  }

  /** A screen with no selection ignores vault messages. */
  lemma ForwardOnlyWhenSelected(sel: Option<VaultView>, msg: VaultMessage, decode: string -> Option<Psbt>)
    ensures sel.None? ==> ForwardNext(sel, msg, decode) == (None, NoCommand)
    ensures sel.Some? ==>
              ForwardNext(sel, msg, decode) ==
              (Some(VaultNext(sel.value, msg, decode).0), VaultNext(sel.value, msg, decode).1)
  {
  }

  /** Clicking the same outpoint twice leaves nothing selected when the first
      click selected or deselected a vault. */
  lemma ToggleTwice(selectedOutpoint: Option<Outpoint>, listed: seq<Vault>, outpoint: Outpoint)
    ensures var t := ToggleOn(selectedOutpoint, listed, outpoint);
            t.SelectListed? ==> ToggleOn(Some(t.vault.outpoint), listed, outpoint).Deselect?
    ensures var t := ToggleOn(selectedOutpoint, listed, outpoint);
            t.Deselect? ==> ToggleOn(None, listed, outpoint) != Deselect
  {
  }

  /** A screen's selected-vault widget and the footprint it adds. */
  ghost predicate Owns(sel: Option<SelectedVault>, owner: object, repr: set<object>)
    reads if sel.Some? then {sel.value} + sel.value.Repr else {}
  {
    match sel
    case None => repr == {owner}
    case Some(v) => repr == {owner} + v.Repr && owner !in v.Repr && v.Valid()
  }

  function ViewOf(sel: Option<SelectedVault>): Option<VaultView>
    reads if sel.Some? then {sel.value} + sel.value.Repr else {}
    requires sel.Some? ==> sel.value.Valid()
  {
    if sel.Some? then Some(sel.value.View()) else None
  }
}
