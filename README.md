# revault-gui: signing, vault lifecycle and controller state machines

This project models the message-driven state of the revault-gui desktop
client, the GUI of the Revault bitcoin vault protocol, and proves
properties of it. Every screen and widget takes one message at a time in
its `update`. The update changes its fields and may ask the daemon to do
something. Here every request to the daemon is a `Command` value; nothing
asynchronous is modelled.

- `Signing` is the signature collector (`SignState`). A psbt pasted in the
  indirect method is kept only when it decodes to the transaction being
  signed. Otherwise a fixed warning is raised.
- `VaultWidget` is the selected vault (`Vault`, here the class
  `SelectedVault`) and its sections. The delegate section signs the unvault
  transaction. The acknowledge section collects the revocation chain,
  emergency, then emergency-unvault, then cancel, and submits it once.
- `Selection` holds the outpoint toggle and the forwarding that the vault
  list screens share.
- `Balances` holds the status filters and the balance sums of the screens.
- `VaultsScreen`, `ManagerHome` and `Stakeholder` are the vault-list
  controllers.
- `ManagerSend` is the spend builder: recipients, inputs, the
  Welcome → Outputs → Inputs → Fee → Sign → Success wizard, the psbt
  import screen and the send screen that switches between them.
- `Installer` holds the installer's xpub, cosigner and counter editors.

Each source struct that is updated in place is a `class`. A pure
`View()` function gives its state as a value, and each method's
`ensures` ties the new view (and the command it returns) to a transition
function on values. The properties are lemmas about those transition
functions. Lists the source mutates (outputs, inputs, xpubs, cosigners)
are `seq` fields. The accumulator loops (`input_amount`, `output_amount`,
the `calculate_balance` loops, the installer's `check` loops and the
`while` loop of `load_context`) are methods with loop invariants. Each is
proved equal to a recursive specification function.

Calls into libraries the model cannot see are parameters of the
operations that use them:
- `decode: string -> Option<Psbt>` is base64 and psbt decoding;
- `parseAmount: string -> Option<nat>` is `Amount::from_str_in` in BTC;
- `isAddress` is `Address::from_str`;
- `isXpub` is `ExtendedPubKey::from_str`;
- `xpubEdit` and `keyEdit` are the edits of the shared xpub and key
  widgets (src/installer/step/common.rs is not part of this model).

A `Psbt` is its unsigned transaction id together with an opaque payload.

## Model

| member | source | states |
|---|---|---|
| Model.FindVault | src/ui/state/vaults.rs:59-70 | The result is None exactly when no listed vault has the outpoint; otherwise it is the first listed vault with that outpoint |
| Model.Remove | src/ui/state/manager.rs:545-547 | `Vec::remove`: one element shorter, the entries before the index kept, the later ones shifted down by one |
| Signing.NewSignIsFresh | src/app/state/sign.rs:42-52 | A new collector has no signed psbt, is unshared, uses the direct method and satisfies the invariant |
| Signing.SuccessOnlyShares | src/app/state/sign.rs:56-58 | `Success` sets the sharing status to Success and changes no other field |
| Signing.PsbtEditedOnlyInIndirect | src/app/state/sign.rs:59-69 | An edit in the indirect method stores the input and clears the warning; in the direct method nothing changes |
| Signing.SignOutcome | src/app/state/sign.rs:70-95 | `Sign` in the direct method or with an empty input does nothing. Otherwise a psbt is kept exactly when it decodes to the original's transaction. An undecodable input raises "Please enter valid PSBT" and another transaction raises "PSBT is not the targeted transaction to sign" |
| Signing.ChangeMethodToggles | src/app/state/sign.rs:96-108 | Direct ↔ indirect; entering the indirect method starts from an empty input with no warning; toggling twice from direct is the identity |
| Signing.SignNextKeepsInvariant | src/app/state/sign.rs:54-112 | Every update keeps a signed psbt, if any, for the original's unsigned transaction, keeps any warning the one the input deserves, and never changes the original or the kind |
| Signing.SignRunKeepsInvariant | src/app/state/sign.rs:54-112 | The same invariant along any sequence of messages |
| Signing.AcceptedSignatureHasNoWarning | src/app/state/sign.rs:78-93 | The accepting branch does not clear the warning, but under the invariant there is none to clear |
| Signing.SignState.constructor | src/app/state/sign.rs:42-52 | The object starts as the fresh collector of NewSignIsFresh |
| Signing.SignState.Update | src/app/state/sign.rs:54-112 | The object's new state is the transition of SignNextKeepsInvariant and SignOutcome |
| VaultWidget.FreshSectionsAreValid | src/ui/state/vault.rs:163-180 | A delegate section has an Unvault signer over the unvault tx; an acknowledge section has all three flags false and an Emergency signer over the emergency tx; both satisfy the section invariant |
| VaultWidget.SectionNextKeepsInvariant | src/ui/state/vault.rs:182-266 | A section update keeps the section's kind, the ordering cancel ⇒ emergency-unvault ⇒ emergency of the signed flags, the signer for the first unsigned member, and the three members' transaction ids |
| VaultWidget.SignNextKeepsAdmissible | src/app/state/sign.rs:54-112 | Every collector update keeps its signed psbt admissible, its original and its kind |
| VaultWidget.RevocationSubmittedOnlyWhenComplete | src/ui/state/vault.rs:244-256 | `set_revocation_txs` is issued only from an acknowledge section with emergency and emergency-unvault signed. After it all three flags are set, and the call carries the three stored psbts, each for its member's own transaction |
| VaultWidget.UnvaultSubmittedWhenSigned | src/ui/state/vault.rs:213-221 | In the delegate section `set_unvault_tx` is issued exactly when the signer holds a signed psbt, and it holds the unvault transaction of the section |
| VaultWidget.ChainAdvances | src/ui/state/vault.rs:229-256 | A signed emergency is stored and hands over to a fresh EmergencyUnvault signer; a signed emergency-unvault is stored and hands over to a fresh Cancel signer; a signed cancel is stored and the whole chain is submitted |
| VaultWidget.SignedResponse | src/ui/state/vault.rs:189-211 | A failed submission keeps every collected psbt and flag and sets the section warning; a successful one marks the signer as shared |
| VaultWidget.SignWithoutSignerIsNoop | src/ui/state/vault.rs:182-266 | Any section message to an unloaded or on-chain section changes nothing and issues nothing |
| VaultWidget.RevocationRunSubmitsOnlyTargets | src/ui/state/vault.rs:222-260 | Along any message sequence from a valid acknowledge section, every submission targets the section's outpoint and carries psbts for exactly the three transactions handed out by the daemon |
| VaultWidget.ForeignRequestIgnored | src/ui/state/vault.rs:90-105 | A delegate or acknowledge request for another outpoint changes nothing and issues nothing |
| VaultWidget.ResponsesInstallSections | src/ui/state/vault.rs:78-89 | Ok answers install the onchain, delegate or acknowledge section; Err answers only set the warning |
| VaultWidget.VaultNextKeepsInvariant | src/ui/state/vault.rs:70-114 | Every vault update keeps the vault record and the section invariant |
| VaultWidget.VaultRunKeepsInvariant | src/ui/state/vault.rs:70-114 | The same along any sequence of messages |
| VaultWidget.NewDelegateSection | src/ui/state/vault.rs:163-169 | Builds the fresh delegate section, with a new signer object |
| VaultWidget.NewAckSection | src/ui/state/vault.rs:171-180 | Builds the fresh acknowledge section, with a new signer object |
| VaultWidget.SelectedVault.constructor | src/ui/state/vault.rs:61-68 | A new vault widget is unloaded with no warning |
| VaultWidget.SelectedVault.Load | src/ui/state/vault.rs:125-130 | Loading asks for the on-chain transactions of the vault's own outpoint |
| VaultWidget.SelectedVault.Update | src/ui/state/vault.rs:70-114 | The object's new state and command are VaultNext's; no object outside its footprint changes |
| VaultWidget.SelectedVault.UpdateSection | src/ui/state/vault.rs:182-266 | The section's new state and command are SectionNext's, and the vault's warning is kept |
| Selection.ToggleOn | src/ui/state/vaults.rs:51-70 | Both directions: deselect exactly when the outpoint is the selected one; select exactly when it is not and a listed vault has it, and then the first such vault; otherwise ignore |
| Selection.SelectionKeepsInvariant | src/ui/state/vaults.rs:83-91 | A fresh selection and any forwarded message keep the selected vault valid, and forwarding never changes which vault is selected |
| Selection.ForwardOnlyWhenSelected | src/ui/state/vaults.rs:83-91 | Without a selection a vault message is dropped; with one it is the vault's own update |
| Selection.ToggleTwice | src/ui/state/vaults.rs:51-70 | Clicking a vault just selected deselects it; after a deselect, clicking again does not deselect |
| Balances.KeepWhereMembers | src/ui/state/manager.rs:92-104 | A status filter keeps exactly the listed vaults with a status in the set, as many as the count |
| Balances.KeepWhereAppend | src/ui/state/stakeholder.rs:51-67 | Filtering distributes over concatenation, so the filter keeps list order |
| Balances.KeepWhereAll | src/ui/state/stakeholder.rs:51-67 | A filter every vault passes is the identity |
| Balances.SumWhereIsTotalOfKept | src/ui/state/manager.rs:127-143 | The sum over the vaults with a status in a set is the total of the vaults the filter keeps |
| Balances.TotalAppend | src/ui/state/manager.rs:127-143 | Totals add over concatenation |
| Balances.SumWhereDisjoint | src/ui/state/manager.rs:127-143 | Sums and counts over disjoint status sets add up |
| Balances.SumWhereAllIsTotal | src/ui/state/manager.rs:127-143 | Summing over all statuses is the total |
| Balances.StatusListed | src/ui/state/manager.rs:127-143 | Every status is one of the fifteen listed |
| Balances.NoneCountedNoneSummed | src/ui/state/stakeholder.rs:90-108 | A status with no vault has zero sum |
| Balances.ManagerBalancePartition | src/ui/state/manager.rs:127-143 | The active and inactive buckets are disjoint and, with the other statuses, account for the whole total |
| Balances.StatusBalanceCounts | src/ui/state/stakeholder.rs:90-108 | The per-status map has a key exactly for each counted status present, holding that status's count and sum |
| VaultsScreen.SnapshotKeepsSelection | src/ui/state/vaults.rs:44-49 | A snapshot replaces the list, in order, and keeps the selection; a failure sets the warning |
| VaultsScreen.SelectBehaviour | src/ui/state/vaults.rs:51-70 | Re-selecting deselects; a listed outpoint selects a fresh unloaded copy of that vault and loads it; an unknown outpoint changes nothing |
| VaultsScreen.VaultsNextKeepsInvariant | src/ui/state/vaults.rs:74-95 | Every update keeps the selected vault valid |
| VaultsScreen.BlockHeightResponse | src/ui/state/vaults.rs:83-91 | Ok sets the block height; Err sets the warning |
| VaultsScreen.VaultsState.constructor | src/ui/state/vaults.rs:33-42 | No vaults, no selection, height 0, no warning |
| VaultsScreen.VaultsState.Load | src/ui/state/vaults.rs:108-113 | Asks for the block height and all vaults |
| VaultsScreen.VaultsState.UpdateVaults | src/ui/state/vaults.rs:44-49 | The list is replaced and nothing else changes |
| VaultsScreen.VaultsState.OnVaultSelect | src/ui/state/vaults.rs:51-70 | New state and command are those of SelectBehaviour |
| VaultsScreen.VaultsState.Update | src/ui/state/vaults.rs:74-95 | New state and command are VaultsNext's |
| ManagerHome.ManagerHomeSnapshot | src/ui/state/manager.rs:92-104 | A snapshot keeps exactly the unvaulting vaults in order, balances the whole list into the active and inactive buckets that miss only other statuses, and keeps the selection |
| ManagerHome.SpendTxSelectBehaviour | src/ui/state/manager.rs:70-90 | The same toggle keyed by unsigned txid: the selected one is deselected; a listed one is selected and loaded; anything else changes nothing |
| ManagerHome.SpendTxForwardedOnlyWhenSelected | src/ui/state/manager.rs:147-156 | Spend-transaction messages go to the detail screen only when one is selected |
| ManagerHome.ManagerHomeKeepsInvariant | src/ui/state/manager.rs:147-184 | Every update keeps the selected vault valid |
| ManagerHome.ManagerHomeState.constructor | src/ui/state/manager.rs:52-64 | Starts empty with nothing selected |
| ManagerHome.ManagerHomeState.Load | src/ui/state/manager.rs:210-219 | Asks for the block height, all vaults and the spend transactions |
| ManagerHome.ManagerHomeState.UpdateSpendTxs | src/ui/state/manager.rs:66-68 | The spend list is replaced and nothing else changes |
| ManagerHome.ManagerHomeState.OnSpendTxSelect | src/ui/state/manager.rs:70-90 | New state and command are those of SpendTxSelectBehaviour |
| ManagerHome.ManagerHomeState.CalculateBalance | src/ui/state/manager.rs:127-143 | The loop leaves exactly the two buckets of ManagerBalancePartition |
| ManagerHome.ManagerHomeState.UpdateVaults | src/ui/state/manager.rs:92-104 | The new state is the one of ManagerHomeSnapshot |
| ManagerHome.ManagerHomeState.OnVaultSelect | src/ui/state/manager.rs:106-125 | New state and command are the vault toggle's |
| ManagerHome.ManagerHomeState.Update | src/ui/state/manager.rs:147-184 | New state and command are ManagerHomeNext's |
| Stakeholder.HomeSnapshot | src/ui/state/stakeholder.rs:51-67 | A snapshot keeps exactly the moving vaults (canceling, spending, unvaulting, unvaulted) and sets the per-status (count, sum) map over the counted statuses |
| Stakeholder.AckSelectThenLoad | src/ui/state/stakeholder.rs:243-263 | Selecting a listed deposit asks for its revocation transactions; their arrival opens the chain for exactly that deposit |
| Stakeholder.AckReselectReloads | src/ui/state/stakeholder.rs:243-263 | Clicking the selected deposit again deselects it and reloads the deposits |
| Stakeholder.AckBalanceIsFunded | src/ui/state/stakeholder.rs:270-279 | The snapshot replaces the deposits, and the balance is the total of the funded ones only |
| Stakeholder.DelegateRequestBehaviour | src/ui/state/stakeholder.rs:386-405 | A delegation request for the selected vault asks for its unvault tx; for another listed vault it first selects a fresh copy; an unknown outpoint changes nothing |
| Stakeholder.AcknowledgeRequestBehaviour | src/ui/state/stakeholder.rs:407-426 | The same for acknowledgement, asking for revocation transactions |
| Stakeholder.FilterReplacesFilter | src/ui/state/stakeholder.rs:459-477 | A filter message replaces the filter and nothing else; the vaults shown are exactly the listed ones with a status in it |
| Stakeholder.DelegateBalanceIsActive | src/ui/state/stakeholder.rs:428-438 | The snapshot replaces the list, and the active balance is the total of the active, unvaulting and unvaulted vaults |
| Stakeholder.HomeKeepsInvariant | src/ui/state/stakeholder.rs:112-129 | Every update keeps the selected vault valid |
| Stakeholder.AckKeepsInvariant | src/ui/state/stakeholder.rs:283-304 | Every update keeps the selected vault valid |
| Stakeholder.DelegateKeepsInvariant | src/ui/state/stakeholder.rs:442-465 | Every update keeps the selected vault valid |
| Stakeholder.StakeholderHomeState.constructor | src/ui/state/stakeholder.rs:40-49 | Starts empty with nothing selected |
| Stakeholder.StakeholderHomeState.Load | src/ui/state/stakeholder.rs:144-149 | Asks for the block height and all vaults |
| Stakeholder.StakeholderHomeState.CalculateBalance | src/ui/state/stakeholder.rs:90-108 | The map-building loop leaves the per-status map of StatusBalanceCounts |
| Stakeholder.StakeholderHomeState.UpdateVaults | src/ui/state/stakeholder.rs:51-67 | The new state is HomeSnapshot's |
| Stakeholder.StakeholderHomeState.OnVaultSelect | src/ui/state/stakeholder.rs:69-88 | New state and command are the vault toggle's |
| Stakeholder.StakeholderHomeState.Update | src/ui/state/stakeholder.rs:112-129 | New state and command are HomeNext's |
| Stakeholder.StakeholderACKFundsState.constructor | src/ui/state/stakeholder.rs:232-241 | Starts empty with nothing selected |
| Stakeholder.StakeholderACKFundsState.Load | src/ui/state/stakeholder.rs:314-322 | Asks for the securing and funded vaults |
| Stakeholder.StakeholderACKFundsState.CalculateBalance | src/ui/state/stakeholder.rs:270-279 | The loop leaves the funded-only sum |
| Stakeholder.StakeholderACKFundsState.UpdateDeposits | src/ui/state/stakeholder.rs:265-268 | The deposits are replaced and balanced |
| Stakeholder.StakeholderACKFundsState.OnVaultSelect | src/ui/state/stakeholder.rs:243-263 | New state and command are those of AckSelectThenLoad and AckReselectReloads |
| Stakeholder.StakeholderACKFundsState.Update | src/ui/state/stakeholder.rs:283-304 | New state and command are AckNext's |
| Stakeholder.StakeholderDelegateFundsState.constructor | src/ui/state/stakeholder.rs:345-355 | Starts with the inactive statuses as the filter and nothing selected |
| Stakeholder.StakeholderDelegateFundsState.Load | src/ui/state/stakeholder.rs:485-499 | Asks for the vaults the screen lists |
| Stakeholder.StakeholderDelegateFundsState.CalculateBalance | src/ui/state/stakeholder.rs:428-438 | The loop, from 0, leaves the active sum |
| Stakeholder.StakeholderDelegateFundsState.UpdateVaults | src/ui/state/stakeholder.rs:357-363 | The list is replaced and balanced |
| Stakeholder.StakeholderDelegateFundsState.OnVaultSelect | src/ui/state/stakeholder.rs:365-384 | New state and command are the vault toggle's, with a reload on deselect |
| Stakeholder.StakeholderDelegateFundsState.OnVaultRequest | src/ui/state/stakeholder.rs:386-426 | New state and command are those of DelegateRequestBehaviour and AcknowledgeRequestBehaviour |
| Stakeholder.StakeholderDelegateFundsState.OnVaultMessage | src/ui/state/stakeholder.rs:442-465 | Selection and requests are the screen's own; other vault messages go to the selected vault |
| Stakeholder.StakeholderDelegateFundsState.ForwardToSelected | src/ui/state/stakeholder.rs:442-465 | A vault message reaches the selected vault, as in ForwardOnlyWhenSelected, and nothing else changes |
| Stakeholder.StakeholderDelegateFundsState.SelectAndRequest | src/ui/state/stakeholder.rs:386-426 | A request for a listed vault other than the selected one selects it afresh and hands it the request; an unknown outpoint changes nothing |
| Stakeholder.StakeholderDelegateFundsState.Update | src/ui/state/stakeholder.rs:442-465 | New state and command are DelegateNext's |
| ManagerSend.RecipientAmount | src/ui/state/manager.rs:654-662 | An empty amount is 0; otherwise it succeeds exactly when the amount parses, with the parsed value, and fails with "cannot parse output amount" |
| ManagerSend.OutputNextKeepsWarningsExact | src/ui/state/manager.rs:671-687 | After any recipient edit each warning is set exactly when its non-empty field does not parse; a new recipient has no warnings and is not valid |
| ManagerSend.ValidOutputParses | src/ui/state/manager.rs:664-669 | Under exact warnings, a recipient is valid exactly when its address is a non-empty address and its amount a non-empty parseable amount |
| ManagerSend.FreshInputs | src/ui/state/manager.rs:396-401 | One unselected input per listed vault, in order |
| ManagerSend.Outpoints | src/ui/state/manager.rs:450-469 | The outpoints of the vaults, in order |
| ManagerSend.SelectedInputsMembers | src/ui/state/manager.rs:423-435 | The selected inputs are exactly the vaults of the selected entries |
| ManagerSend.InputTotalIsSelectedTotal | src/ui/state/manager.rs:403-411 | The input amount is the total of the selected inputs |
| ManagerSend.OutputTotalAppend | src/ui/state/manager.rs:413-421 | Output totals add over concatenation |
| ManagerSend.OutputTotalRemove | src/ui/state/manager.rs:544-547 | Deleting a recipient removes exactly its parseable amount from the total; adding an empty one changes nothing |
| ManagerSend.OutputMapLastWins | src/ui/state/manager.rs:455-462 | The outputs map has a key exactly for each recipient address, holding the amount of the address's last occurrence |
| ManagerSend.NewCreateKeepsInvariant | src/ui/state/manager.rs:383-394 | The wizard starts in a state satisfying its invariant, not ready to leave the outputs step |
| ManagerSend.CreateNextKeepsInvariant | src/ui/state/manager.rs:439-563 | Every update keeps recipients' warnings exact, and the signer of the sign step admissible and of kind Spend |
| ManagerSend.ReadyOutputsGenerate | src/ui/state/manager.rs:450-469 | Once the outputs step is passable, `Generate` cannot hit its unwrap |
| ManagerSend.GenerateRequestsSelection | src/ui/state/manager.rs:450-469 | `Generate` marks the request in flight, clears the warning, and asks for a spend of exactly the selected vaults to the recipients' addresses at the current feerate |
| ManagerSend.ProposalResponse | src/ui/state/manager.rs:441-449 | The answer ends the request: Ok stores the psbt with its feerate; Err sets the warning |
| ManagerSend.FeerateFrozenWhileProcessing | src/ui/state/manager.rs:470-475 | While a request is in flight the feerate edit is ignored; otherwise it sets the feerate and discards the psbt |
| ManagerSend.EditsDiscardProposal | src/ui/state/manager.rs:545-559 | Every recipient edit, deletion included, and every input edit discards the psbt and keeps the step |
| ManagerSend.DeleteKeepsStaleProposal | src/ui/state/manager.rs:545-547 | As written, deleting a recipient after generating keeps the psbt that still pays it |
| ManagerSend.StepsAdvanceOneAtATime | src/ui/state/manager.rs:510-543 | `Next` moves forward one step, and from Fee only with a psbt, entering Sign with a fresh Spend signer over it; `Previous` steps back, and from Welcome or Success goes to Outputs |
| ManagerSend.SuccessOnlyAfterSigning | src/ui/state/manager.rs:480-495 | Success is reached only from Sign on an Ok acknowledgement, storing the signed psbt of the generated transaction at the same feerate |
| ManagerSend.SignedSpendSentOnlyIfAdmissible | src/ui/state/manager.rs:496-509 | A signed psbt is sent to the daemon only from the sign step, and only for the transaction being signed; outside it a sign message changes nothing |
| ManagerSend.ImportSendsOnlyDecodedPsbt | src/ui/state/manager.rs:322-335 | Import sends the psbt exactly when the input is non-empty and decodes; otherwise it sets "Please enter valid PSBT" |
| ManagerSend.ImportResponses | src/ui/state/manager.rs:312-321 | Ok shows the decoded psbt; Err sets the warning; an edit stores the input and clears the warning |
| ManagerSend.SendModesMoveForward | src/ui/state/manager.rs:241-264 | The wizard is left only by `Import`, for a fresh import screen; the import screen only by choosing a psbt, whose detail then loads and receives every message |
| ManagerSend.SendNextKeepsInvariant | src/ui/state/manager.rs:241-264 | The wizard's invariant holds across the send screen |
| ManagerSend.ManagerCreateSendTransactionState.constructor | src/ui/state/manager.rs:383-394 | Welcome step, feerate 20, one empty recipient, no psbt, not processing |
| ManagerSend.ManagerCreateSendTransactionState.Load | src/ui/state/manager.rs:618-623 | Asks for the active vaults |
| ManagerSend.ManagerCreateSendTransactionState.UpdateVaults | src/ui/state/manager.rs:396-401 | The inputs become the fresh inputs of the vaults |
| ManagerSend.ManagerCreateSendTransactionState.InputAmount | src/ui/state/manager.rs:403-411 | The loop returns the total of the selected inputs |
| ManagerSend.ManagerCreateSendTransactionState.OutputAmount | src/ui/state/manager.rs:413-421 | The loop returns the sum of the parseable amounts |
| ManagerSend.ManagerCreateSendTransactionState.OnNext | src/ui/state/manager.rs:510-529 | The step advances as in StepsAdvanceOneAtATime |
| ManagerSend.ManagerCreateSendTransactionState.OnPrevious | src/ui/state/manager.rs:530-543 | The step goes back as in StepsAdvanceOneAtATime |
| ManagerSend.ManagerCreateSendTransactionState.OnSpendTx | src/ui/state/manager.rs:450-509 | New state and command of the spend-transaction messages |
| ManagerSend.ManagerCreateSendTransactionState.Update | src/ui/state/manager.rs:439-563 | New state and command are CreateNext's |
| ManagerSend.ManagerImportSendTransactionState.constructor | src/ui/state/manager.rs:294-302 | No psbt, empty input, no warning |
| ManagerSend.ManagerImportSendTransactionState.Load | src/ui/state/manager.rs:349-351 | Loads nothing |
| ManagerSend.ManagerImportSendTransactionState.Update | src/ui/state/manager.rs:312-339 | New state and command are ImportNext's |
| ManagerSend.ManagerSendState.constructor | src/ui/state/manager.rs:235-237 | Starts in the wizard |
| ManagerSend.ManagerSendState.Load | src/ui/state/manager.rs:274-280 | The current mode's load |
| ManagerSend.ManagerSendState.Update | src/ui/state/manager.rs:241-264 | New mode and command are SendNext's |
| Signing.SignNext | src/app/state/sign.rs:54-112 | `SignState::update` on values, arm by arm; its meaning is given by SignOutcome, ChangeMethodToggles, PsbtEditedOnlyInIndirect, SuccessOnlyShares and SignNextKeepsInvariant |
| VaultWidget.SectionNext | src/ui/state/vault.rs:182-266 | `VaultSection::update` on values; stated by SectionNextKeepsInvariant, ChainAdvances, RevocationSubmittedOnlyWhenComplete, UnvaultSubmittedWhenSigned, SignedResponse and SignWithoutSignerIsNoop |
| VaultWidget.VaultNext | src/ui/state/vault.rs:70-114 | `Vault::update` on values; stated by ResponsesInstallSections, ForeignRequestIgnored and VaultNextKeepsInvariant |
| Selection.ForwardNext | src/ui/state/vaults.rs:74-95 | Forwarding a vault message to the selection; stated by ForwardOnlyWhenSelected and SelectionKeepsInvariant |
| VaultsScreen.VaultsNext | src/ui/state/vaults.rs:74-95 | `VaultsState::update` on values; stated by SnapshotKeepsSelection, BlockHeightResponse and VaultsNextKeepsInvariant |
| VaultsScreen.VaultsSelect | src/ui/state/vaults.rs:51-70 | `on_vault_select` on values; stated by SelectBehaviour |
| ManagerHome.ManagerHomeNext | src/ui/state/manager.rs:147-184 | `ManagerHomeState::update` on values; stated by ManagerHomeSnapshot, SpendTxSelectBehaviour, SpendTxForwardedOnlyWhenSelected and ManagerHomeKeepsInvariant |
| ManagerHome.SpendTxSelect | src/ui/state/manager.rs:70-90 | `on_spend_tx_select` on values; stated by SpendTxSelectBehaviour |
| ManagerHome.ManagerHomeSelect | src/ui/state/manager.rs:106-125 | `on_vault_select` on values, the toggle of Selection.ToggleOn |
| ManagerHome.ManagerHomeUpdateVaults | src/ui/state/manager.rs:92-104 | `update_vaults` on values; stated by ManagerHomeSnapshot |
| Stakeholder.HomeNext | src/ui/state/stakeholder.rs:112-129 | `StakeholderHomeState::update` on values; stated by HomeSnapshot and HomeKeepsInvariant |
| Stakeholder.HomeSelect | src/ui/state/stakeholder.rs:69-88 | `on_vault_select` on values, the toggle of Selection.ToggleOn |
| Stakeholder.AckNext | src/ui/state/stakeholder.rs:283-304 | `StakeholderACKFundsState::update` on values; stated by AckSelectThenLoad, AckReselectReloads, AckBalanceIsFunded and AckKeepsInvariant |
| Stakeholder.AckSelect | src/ui/state/stakeholder.rs:243-263 | `on_vault_select` on values; stated by AckSelectThenLoad and AckReselectReloads |
| Stakeholder.DelegateNext | src/ui/state/stakeholder.rs:442-465 | `StakeholderDelegateFundsState::update` on values; stated by FilterReplacesFilter, DelegateBalanceIsActive, the two request lemmas and DelegateKeepsInvariant |
| Stakeholder.DelegateSelect | src/ui/state/stakeholder.rs:365-384 | `on_vault_select` on values, the toggle with a reload on deselect |
| Stakeholder.DelegateRequest | src/ui/state/stakeholder.rs:386-426 | `on_vault_delegate` and `on_vault_acknowledge` on values; stated by DelegateRequestBehaviour and AcknowledgeRequestBehaviour |
| Stakeholder.DelegateVaultMessage | src/ui/state/stakeholder.rs:442-465 | The vault-message arms of the delegate screen's update |
| Balances.KeepWhere | src/ui/state/stakeholder.rs:51-67 | The status filters (`filter_map` on status); stated by KeepWhereMembers and KeepWhereAppend |
| Balances.SumWhere | src/ui/state/stakeholder.rs:270-279 | The accumulator over a status set; stated by SumWhereIsTotalOfKept, SumWhereDisjoint and SumWhereAllIsTotal |
| Balances.ManagerBalance | src/ui/state/manager.rs:127-143 | The two buckets of the manager balance; stated by ManagerBalancePartition |
| Balances.StatusBalance | src/ui/state/stakeholder.rs:90-108 | The per-status map built entry by entry; stated by StatusBalanceCounts |
| ManagerSend.OutputNext | src/ui/state/manager.rs:671-687 | `ManagerSendOutput::update` on values; stated by OutputNextKeepsWarningsExact |
| ManagerSend.SelectedInputs | src/ui/state/manager.rs:423-435 | `selected_inputs`; stated by SelectedInputsMembers |
| ManagerSend.InputTotal | src/ui/state/manager.rs:403-411 | The input amount; stated by InputTotalIsSelectedTotal |
| ManagerSend.OutputTotal | src/ui/state/manager.rs:413-421 | The output amount over the parseable amounts; stated by OutputTotalAppend and OutputTotalRemove |
| ManagerSend.OutputMap | src/ui/state/manager.rs:459-463 | The outputs map collected into a `HashMap`; stated by OutputMapLastWins |
| ManagerSend.NextStep | src/ui/state/manager.rs:510-529 | The `Next` arm; stated by StepsAdvanceOneAtATime |
| ManagerSend.PreviousStep | src/ui/state/manager.rs:530-543 | The `Previous` arm; stated by StepsAdvanceOneAtATime |
| ManagerSend.SpendTxNext | src/ui/state/manager.rs:450-509 | The spend-transaction arms; stated by GenerateRequestsSelection, FeerateFrozenWhileProcessing, SuccessOnlyAfterSigning and SignedSpendSentOnlyIfAdmissible |
| ManagerSend.RecipientsEditAsWritten | src/ui/state/manager.rs:544-559 | The recipient arms as written: adding and deleting keep the psbt, edits discard it; stated by DeleteKeepsProposalAsWritten |
| ManagerSend.RecipientsEdit | src/ui/state/manager.rs:544-559 | The recipient arms as intended, deletion discarding the psbt too; stated by EditsDiscardProposal |
| ManagerSend.CreateNext | src/ui/state/manager.rs:439-563 | The wizard's update with the corrected deletion; stated by CreateNextKeepsInvariant, StepsAdvanceOneAtATime, EditsDiscardProposal and the other wizard lemmas |
| ManagerSend.CreateNextAsWritten | src/ui/state/manager.rs:439-563 | The wizard's update as written, deletion keeping the psbt; stated by AsWrittenDiffersOnlyOnDelete and StaleProposalReachesSigning |
| ManagerSend.DeleteKeepsProposalAsWritten | src/ui/state/manager.rs:545-547 | For every state and index in range, the source's deletion removes the recipient and keeps the psbt and the step; the corrected one discards the psbt |
| ManagerSend.AsWrittenDiffersOnlyOnDelete | src/ui/state/manager.rs:439-563 | The source's update equals the corrected one except for the psbt a deletion keeps, and keeps the wizard invariant too |
| ManagerSend.StaleProposalReachesSigning | src/ui/state/manager.rs:510-547 | From the outputs step with a generated psbt, deleting a recipient and three `Next` reach the signature step over the old psbt as written; the corrected update stops at the fee step with no psbt |
| ManagerSend.ImportNext | src/ui/state/manager.rs:312-339 | The import screen's update; stated by ImportSendsOnlyDecodedPsbt and ImportResponses |
| ManagerSend.SendNext | src/ui/state/manager.rs:241-264 | The send screen's update; stated by SendModesMoveForward and SendNextKeepsInvariant |
| Installer.CheckXpubs | src/installer/step/manager.rs:39-45 | The check loop on values; stated by CheckXpubsAt, CheckOnlyRaisesWarnings and CheckedCorrectIff |
| Installer.XpubListNext | src/installer/step/manager.rs:47-60 | Deleting or editing one xpub by index; stated by XpubListEdits |
| Installer.KeyListNext | src/installer/step/manager.rs:159-166 | Deleting or editing one cosigner key by index |
| Installer.ManagerXpubsNext | src/installer/step/manager.rs:141-192 | The manager step's update on values; stated by ManagerXpubsEdits, Counter and CounterRoundTrip |
| Installer.ManagerXpubsChecked | src/installer/step/manager.rs:126-139 | The manager step's check on values; stated by ManagerCheckedCorrectIff |
| Installer.AnyWarnedIff | src/installer/step/manager.rs:35-37 | The `any` over warnings holds exactly when some entry has its warning set |
| Installer.AnyCosignerWarnedIff | src/installer/step/manager.rs:300-305 | Some cosigner is flagged exactly when one has a host or noise key warning |
| Installer.CheckXpubsAt | src/installer/step/manager.rs:39-45 | `check` keeps the list's length and checks each entry on its own |
| Installer.CheckOnlyRaisesWarnings | src/installer/step/manager.rs:39-45 | A check keeps every xpub, never clears a warning, and sets one exactly on the entries that do not parse |
| Installer.CheckedCorrectIff | src/installer/step/manager.rs:35-45 | After `check`, the step is correct exactly when nothing was flagged before and every entry parses |
| Installer.XpubListEdits | src/installer/step/manager.rs:47-67 | An edit out of range changes nothing; in range it replaces that entry alone; a deletion shifts the later entries down |
| Installer.Counter | src/installer/step/manager.rs:170-189 | Increment adds one; Decrement subtracts one, but not below zero |
| Installer.CounterRoundTrip | src/installer/step/manager.rs:170-189 | A decrement undoes an increment, and an increment undoes a decrement above zero |
| Installer.ManagerXpubsEdits | src/installer/step/manager.rs:141-192 | Editing our xpub clears its warning; adding appends one fresh entry; other steps' messages change nothing |
| Installer.ManagerCheckedCorrectIff | src/installer/step/manager.rs:126-139 | After `check`, the manager step is correct exactly when nothing was flagged before and our xpub and every other xpub parse |
| Installer.CosignerNext | src/installer/step/manager.rs:252-263 | The edited field is stored and its warning cleared; the other field and its warning are kept |
| Installer.CosignersNext | src/installer/step/manager.rs:313-319 | A cosigner message edits the indexed cosigner alone; an index out of range, or another step's message, changes nothing |
| Installer.Resized | src/installer/step/manager.rs:290-298 | The target length, keeping the prefix and padding with fresh cosigners |
| Installer.ResizedKeepsPrefix | src/installer/step/manager.rs:290-298 | Resizing to the current length changes nothing; shrinking truncates; growing keeps the list as a prefix |
| Installer.DefineStakeholderXpubs.constructor | src/installer/step/manager.rs:22-32 | No xpubs |
| Installer.DefineStakeholderXpubs.IsCorrect | src/installer/step/manager.rs:35-37 | Correct exactly when no xpub has its warning set |
| Installer.DefineStakeholderXpubs.Check | src/installer/step/manager.rs:39-45 | The loop leaves the list that CheckOnlyRaisesWarnings describes |
| Installer.DefineStakeholderXpubs.Update | src/installer/step/manager.rs:47-67 | Add appends a fresh xpub; delete and edit are those of XpubListEdits; other messages change nothing |
| Installer.DefineManagerXpubs.constructor | src/installer/step/manager.rs:107-119 | No xpubs or cosigners, counters at 0 |
| Installer.DefineManagerXpubs.UpdateContext | src/installer/step/manager.rs:122-124 | The context's cosigner count becomes the number of cosigners |
| Installer.DefineManagerXpubs.IsCorrect | src/installer/step/manager.rs:137-139 | Correct exactly when our xpub is not flagged and no other xpub is |
| Installer.DefineManagerXpubs.Check | src/installer/step/manager.rs:126-135 | The loop leaves the state that ManagerCheckedCorrectIff describes |
| Installer.DefineManagerXpubs.Update | src/installer/step/manager.rs:141-192 | The new state is ManagerXpubsNext's |
| Installer.DefineCosigners.constructor | src/installer/step/manager.rs:281-286 | No cosigners |
| Installer.DefineCosigners.LoadContext | src/installer/step/manager.rs:290-298 | The `while` loop ends with the list resized to the context's count, as in ResizedKeepsPrefix |
| Installer.DefineCosigners.IsCorrect | src/installer/step/manager.rs:300-305 | Correct exactly when no cosigner has a host or noise key warning |
| Installer.DefineCosigners.Update | src/installer/step/manager.rs:313-319 | The new list is CosignersNext's |

## Left out

- Rendering (src/ui/view/*, src/ui/component/mod.rs) is not modelled. The view's gates on leaving the outputs and inputs steps (src/ui/state/manager.rs:572, 588) are the predicates `OutputsStepReady` and `InputsStepReady` only. The float division in the views is display only.
- Navigation, launch, the clipboard and the iced application wiring in src/ui/app.rs are not modelled.
- Daemon calls and `Command::perform`/`batch` are `Command` values; asynchronous execution, ordering of answers and their delivery are not modelled.
- Psbt decoding, amount, address and xpub parsing, and txid hashing are parameters; their behaviour is not modelled.
- `SpendTransactionState` is not part of this model: the selected spend transaction is its psbt, and loading it and forwarding messages to it are the commands `LoadSpendTx` and `ForwardSpendTx`.
- The shared xpub and key widgets of src/installer/step/common.rs are not part of this model: their edits are the parameters `xpubEdit` and `keyEdit`, and their fields are the xpub or key string and one warning flag.
- The daemon's vault model is not part of this model: `VaultStatus::INACTIVE` is the parameter `inactive` of the delegate screen's constructor, and vault statuses are the fifteen constructors of `VaultStatus`.
- `ManagerNetworkState` and `StakeholderNetworkState` only store the block height or a warning; they are not modelled.
- `DefineCosigners::check` has an empty body in the source; there is nothing to model.
- Balances, amounts and counters are `nat`: the u64 sums of the balances and amounts and the u32 counters do not overflow in the model .
- Installer.Counter: an increment never overflows, while the source's fixed-width `+ 1` panics in a debug build and wraps in a release build at the type's maximum.
- `Vec::remove`, `unwrap` and `expect` panics are preconditions (`ManagerSend.CreateNextDefined`, `Installer.ManagerXpubsNextDefined`): deleting an xpub, key or recipient needs an index in range; `Generate` needs every amount to parse, and `ManagerSend.ReadyOutputsGenerate` shows the view's gate guarantees it; the two `expect`s of the `Signed(Ok)` arm (src/ui/state/manager.rs:486-487) need the signer's signed psbt and the generated psbt to be present in the signature step.
- The source has no guard against a second in-flight request: a `Sign` while a signed psbt is held re-sends it, and `Generate` does not check `processing`. The model does the same and proves no at-most-once property.
- Answers from the daemon are not matched to requests, so a late answer is applied to whatever state the screen is in; the model does the same.
- A successful `Sign` does not clear an earlier warning; `Signing.AcceptedSignatureHasNoWarning` shows none can be set then.
- Changing the delegate screen's filter does not fetch the vaults again; the filter only narrows what is shown.
- Aliasing between screens is not modelled: each screen owns its selected vault and signer objects, and no object is shared.

- ManagerSend.CreateNext: deleting a recipient discards the generated psbt, unlike src/ui/state/manager.rs:545-547, which keeps it; this is the corrected update of the finding below. The update as written is `ManagerSend.CreateNextAsWritten`, and `ManagerSend.AsWrittenDiffersOnlyOnDelete` shows the two differ only there.
- ManagerSend.ManagerCreateSendTransactionState.Update: follows `ManagerSend.CreateNext`, so a deletion discards the psbt, unlike src/ui/state/manager.rs:545-547.

## Findings

| source | as written | input that shows it | evidently intended | confidence | as-written member | corrected member |
|---|---|---|---|---|---|---|
| src/ui/state/manager.rs:545-547 | Deleting a recipient removes it but keeps the generated psbt, while every other recipient or input edit discards it | Recipients a and b; Generate, so the psbt pays a and b; Previous back to the outputs step; delete b; Next to the fee step, then Next enters the sign step over the psbt that still pays b | Deleting a recipient discards the psbt like every other edit, so the wizard cannot sign a spend to a removed recipient | not executed | ManagerSend.RecipientsEditAsWritten, ManagerSend.DeleteKeepsStaleProposal, ManagerSend.CreateNextAsWritten, ManagerSend.StaleProposalReachesSigning | ManagerSend.RecipientsEdit, ManagerSend.CreateNext, ManagerSend.EditsDiscardProposal |
