/** The manager's send screen. It starts as a wizard that builds a spend
    transaction (recipients, then the vaults to spend, then the feerate, then
    a signature), can switch to importing a psbt pasted by the operator, and
    ends on the detail screen of the chosen spend transaction. */
module ManagerSend {
  import opened Model
  import opened Signing
  import opened Balances

  const AmountParseError: string := "cannot parse output amount"
  const DefaultFeerate: nat := 20

  // ---------------------------------------------------------------------
  // Recipients

  /** One recipient as typed: an address and an amount in bitcoin, each with
      a warning flag. */
  datatype SendOutput = SendOutput(address: string, amount: string, warningAddress: bool, warningAmount: bool)

  function NewOutput(): SendOutput {
    SendOutput("", "", false, false)
  }

  /** The recipient's amount in satoshis: an empty field is zero, otherwise
      `parseAmount` (bitcoin-denominated parsing, not part of this model)
      must accept it. */
  function RecipientAmount(o: SendOutput, parseAmount: string -> Option<nat>): (r: Result<nat>)
    ensures o.amount == "" ==> r == Ok(0)
    ensures o.amount != "" ==> (r.Ok? <==> parseAmount(o.amount).Some?)
    ensures o.amount != "" && r.Ok? ==> Some(r.value) == parseAmount(o.amount)
    ensures r.Err? ==> r.error == AmountParseError
  {
    if o.amount == "" then Ok(0)
    else
      match parseAmount(o.amount)
      case Some(sat) => Ok(sat)
      case None => Err(AmountParseError)
  }

  /** A recipient the outputs step accepts: both fields filled in and no
      warning raised. */
  predicate OutputValid(o: SendOutput) {
    o.address != "" && !o.warningAddress && o.amount != "" && !o.warningAmount
  }

  /** `ManagerSendOutput::update`: an edit stores the field and, when the
      field is not empty, recomputes its warning; `isAddress` is the bitcoin
      address parser. Deleting is handled by the screen. */
  function OutputNext(o: SendOutput, msg: RecipientMessage, parseAmount: string -> Option<nat>,
                      isAddress: string -> bool): SendOutput
  {
    match msg
    case AddressEdited(address) =>
      if address != "" then SendOutput(address, o.amount, !isAddress(address), o.warningAmount)
      else SendOutput(address, o.amount, o.warningAddress, o.warningAmount)
    case AmountEdited(amount) =>
      var edited := SendOutput(o.address, amount, o.warningAddress, o.warningAmount);
      if amount != "" then
        SendOutput(o.address, amount, o.warningAddress, RecipientAmount(edited, parseAmount).Err?)
      else edited
    case Delete => o
  }

  /** Each non-empty field's warning says exactly whether the field fails to
      parse. */
  predicate WarningsExact(o: SendOutput, parseAmount: string -> Option<nat>, isAddress: string -> bool) {
    && (o.address != "" ==> (o.warningAddress <==> !isAddress(o.address)))
    && (o.amount != "" ==> (o.warningAmount <==> RecipientAmount(o, parseAmount).Err?))
  }

  predicate AllWarningsExact(os: seq<SendOutput>, parseAmount: string -> Option<nat>, isAddress: string -> bool) {
    forall i :: 0 <= i < |os| ==> WarningsExact(os[i], parseAmount, isAddress)
  }

  /** Edits keep every warning exact, and a new recipient starts exact and
      invalid. */
  lemma OutputNextKeepsWarningsExact(o: SendOutput, msg: RecipientMessage,
                                     parseAmount: string -> Option<nat>, isAddress: string -> bool)
    requires WarningsExact(o, parseAmount, isAddress)
    ensures WarningsExact(OutputNext(o, msg, parseAmount, isAddress), parseAmount, isAddress)
    ensures WarningsExact(NewOutput(), parseAmount, isAddress) && !OutputValid(NewOutput())
  {
  }

  /** With exact warnings, a recipient the outputs step accepts has a parsing
      address and a parsing, non-empty amount. */
  lemma ValidOutputParses(o: SendOutput, parseAmount: string -> Option<nat>, isAddress: string -> bool)
    requires WarningsExact(o, parseAmount, isAddress)
    ensures OutputValid(o) <==>
              o.address != "" && isAddress(o.address) && o.amount != "" && parseAmount(o.amount).Some?
  {
  }

  // ---------------------------------------------------------------------
  // Inputs

  /** A vault offered as an input, with its check box. */
  datatype SendInput = SendInput(vault: Vault, selected: bool)

  /** `update_vaults`: every listed vault, unselected, in list order. */
  function FreshInputs(vs: seq<Vault>): (r: seq<SendInput>)
    ensures |r| == |vs|
    ensures forall i :: 0 <= i < |r| ==> r[i].vault == vs[i] && !r[i].selected
  {
    seq(|vs|, i requires 0 <= i < |vs| => SendInput(vs[i], false))
  }

  /** `selected_inputs`: the selected vaults, in list order. */
  function SelectedInputs(inputs: seq<SendInput>): seq<Vault>
    decreases |inputs|
  {
    if |inputs| == 0 then []
    else
      var last := inputs[|inputs| - 1];
      SelectedInputs(inputs[..|inputs| - 1]) + (if last.selected then [last.vault] else [])
  }

  /** The sum the input-amount loop computes. */
  function InputTotal(inputs: seq<SendInput>): nat
    decreases |inputs|
  {
    if |inputs| == 0 then 0
    else
      var last := inputs[|inputs| - 1];
      InputTotal(inputs[..|inputs| - 1]) + (if last.selected then last.vault.amount else 0)
  }

  /** The sum the output-amount loop computes: amounts that do not parse are
      skipped. */
  function OutputTotal(os: seq<SendOutput>, parseAmount: string -> Option<nat>): nat
    decreases |os|
  {
    if |os| == 0 then 0
    else
      var last := RecipientAmount(os[|os| - 1], parseAmount);
      OutputTotal(os[..|os| - 1], parseAmount) + (if last.Ok? then last.value else 0)
  }

  function Outpoints(vs: seq<Vault>): (r: seq<Outpoint>)
    ensures |r| == |vs| && forall i :: 0 <= i < |vs| ==> r[i] == vs[i].outpoint
  {
    seq(|vs|, i requires 0 <= i < |vs| => vs[i].outpoint)
  }

  predicate AllAmountsParse(os: seq<SendOutput>, parseAmount: string -> Option<nat>) {
    forall i :: 0 <= i < |os| ==> RecipientAmount(os[i], parseAmount).Ok?
  }

  /** The outputs of a spend request, collected into a map in recipient
      order: a repeated address keeps the last recipient's amount. */
  function OutputMap(os: seq<SendOutput>, parseAmount: string -> Option<nat>): map<string, nat>
    requires AllAmountsParse(os, parseAmount)
    decreases |os|
  {
    if |os| == 0 then map[]
    else
      var last := os[|os| - 1];
      OutputMap(os[..|os| - 1], parseAmount)[last.address := RecipientAmount(last, parseAmount).value]
  }

  /** The checked vaults are exactly the vaults of selected inputs. */
  lemma {:induction false} SelectedInputsMembers(inputs: seq<SendInput>)
    ensures forall v :: v in SelectedInputs(inputs) <==>
              exists i :: 0 <= i < |inputs| && inputs[i].selected && inputs[i].vault == v
    ensures |SelectedInputs(inputs)| <= |inputs|
    decreases |inputs|
  {
    if |inputs| > 0 {
      var init := inputs[..|inputs| - 1];
      SelectedInputsMembers(init);
      forall v | (exists i :: 0 <= i < |inputs| && inputs[i].selected && inputs[i].vault == v)
        ensures v in SelectedInputs(inputs)
      {
        var i :| 0 <= i < |inputs| && inputs[i].selected && inputs[i].vault == v;
        if i < |init| {
          assert init[i] == inputs[i];
        }
      }
      forall v | v in SelectedInputs(inputs)
        ensures exists i :: 0 <= i < |inputs| && inputs[i].selected && inputs[i].vault == v
      {
        if v in SelectedInputs(init) {
          var i :| 0 <= i < |init| && init[i].selected && init[i].vault == v;
          assert inputs[i] == init[i];
        } else {
          assert inputs[|inputs| - 1].vault == v;
        }
      }
    }
  }

  /** The input amount is the total of the vaults the request would spend. */
  lemma {:induction false} InputTotalIsSelectedTotal(inputs: seq<SendInput>)
    ensures InputTotal(inputs) == Total(SelectedInputs(inputs))
    decreases |inputs|
  {
    if |inputs| > 0 {
      var init := inputs[..|inputs| - 1];
      var last := inputs[|inputs| - 1];
      InputTotalIsSelectedTotal(init);
      TotalAppend(SelectedInputs(init), if last.selected then [last.vault] else []);
      assert Total([last.vault]) == last.vault.amount by {
        assert [last.vault][..0] == [];
      }
    }
  }

  lemma {:induction false} OutputTotalAppend(a: seq<SendOutput>, b: seq<SendOutput>, parseAmount: string -> Option<nat>)
    ensures OutputTotal(a + b, parseAmount) == OutputTotal(a, parseAmount) + OutputTotal(b, parseAmount)
    decreases |b|
  {
    if |b| > 0 {
      assert (a + b)[..|a + b| - 1] == a + b[..|b| - 1];
      OutputTotalAppend(a, b[..|b| - 1], parseAmount);
    } else {
      assert a + b == a;
    }
  }

  /** Removing a recipient lowers the output amount by that recipient's
      parsed amount, and adding an empty recipient leaves it unchanged. */
  lemma OutputTotalRemove(os: seq<SendOutput>, i: nat, parseAmount: string -> Option<nat>)
    requires i < |os|
    ensures var a := RecipientAmount(os[i], parseAmount);
            OutputTotal(Remove(os, i), parseAmount) + (if a.Ok? then a.value else 0) == OutputTotal(os, parseAmount)
    ensures OutputTotal(os + [NewOutput()], parseAmount) == OutputTotal(os, parseAmount)
  {
    assert os == os[..i] + [os[i]] + os[i + 1..];
    OutputTotalAppend(os[..i] + [os[i]], os[i + 1..], parseAmount);
    OutputTotalAppend(os[..i], [os[i]], parseAmount);
    OutputTotalAppend(os[..i], os[i + 1..], parseAmount);
    assert [os[i]][..0] == [];
    OutputTotalAppend(os, [NewOutput()], parseAmount);
    assert [NewOutput()][..0] == [];
  }

  /** The request's outputs: one per distinct address, holding the amount of
      the last recipient with that address. */
  lemma {:induction false} OutputMapLastWins(os: seq<SendOutput>, parseAmount: string -> Option<nat>)
    requires AllAmountsParse(os, parseAmount)
    ensures forall a :: a in OutputMap(os, parseAmount) <==> exists i :: 0 <= i < |os| && os[i].address == a
    ensures forall i :: 0 <= i < |os| && (forall j :: i < j < |os| ==> os[j].address != os[i].address) ==>
              OutputMap(os, parseAmount)[os[i].address] == RecipientAmount(os[i], parseAmount).value
    decreases |os|
  {
    if |os| > 0 {
      var init := os[..|os| - 1];
      var last := os[|os| - 1];
      OutputMapLastWins(init, parseAmount);
      forall a | a in OutputMap(os, parseAmount)
        ensures exists i :: 0 <= i < |os| && os[i].address == a
      {
        if a != last.address {
          var i :| 0 <= i < |init| && init[i].address == a;
          assert os[i] == init[i];
        }
      }
      forall a | (exists i :: 0 <= i < |os| && os[i].address == a)
        ensures a in OutputMap(os, parseAmount)
      {
        var i :| 0 <= i < |os| && os[i].address == a;
        if i < |init| {
          assert init[i] == os[i];
        }
      }
      forall i | 0 <= i < |os| && (forall j :: i < j < |os| ==> os[j].address != os[i].address)
        ensures OutputMap(os, parseAmount)[os[i].address] == RecipientAmount(os[i], parseAmount).value
      {
        if i < |init| {
          assert os[i] == init[i];
          forall j | i < j < |init| ensures init[j].address != init[i].address {
            assert init[j] == os[j];
          }
        }
      }
    }
  }

  // ---------------------------------------------------------------------
  // The creation wizard, on values

  datatype StepView =
    | WelcomeUser
    | SelectOutputs
    | SelectInputs
    | SelectFee
    | SignStep(signer: SignView)
    | SuccessStep

  /** The position of a step in the wizard. */
  function StepIndex(step: StepView): nat {
    match step
    case WelcomeUser => 0
    case SelectOutputs => 1
    case SelectInputs => 2
    case SelectFee => 3
    case SignStep(_) => 4
    case SuccessStep => 5
  }

  /** The value of the creation wizard. `psbt` is the generated spend
      transaction and its feerate. */
  datatype CreateView = CreateView(
    warning: Option<string>,
    vaults: seq<SendInput>,
    outputs: seq<SendOutput>,
    feerate: nat,
    psbt: Option<(Psbt, nat)>,
    processing: bool,
    step: StepView)

  function NewCreate(): CreateView {
    CreateView(None, [], [NewOutput()], DefaultFeerate, None, false, WelcomeUser)
  }

  /** `ManagerCreateSendTransactionState::load`: only active vaults can be
      spent. */
  function CreateLoad(): Command {
    Batch([ListVaults(Some([Active]))])
  }

  /** The outputs step lets the operator go on when every recipient is
      valid; the inputs step when the inputs exceed the outputs. */
  predicate OutputsStepReady(s: CreateView) {
    forall i :: 0 <= i < |s.outputs| ==> OutputValid(s.outputs[i])
  }

  predicate InputsStepReady(s: CreateView, parseAmount: string -> Option<nat>) {
    InputTotal(s.vaults) > OutputTotal(s.outputs, parseAmount)
  }

  /** Where the creation update does not panic: generating unwraps every
      recipient's amount, a signature success expects a signed and a
      generated psbt, and deleting indexes the recipient list. */
  predicate CreateNextDefined(s: CreateView, msg: Message, parseAmount: string -> Option<nat>) {
    match msg
    case SpendTxMsg(m) =>
      && (m.Generate? ==> AllAmountsParse(s.outputs, parseAmount))
      && (m.SpendSigned? && m.signed.Ok? && s.step.SignStep? ==>
            s.step.signer.signedPsbt.Some? && s.psbt.Some?)
    case Recipient(i, m) => m.Delete? ==> i < |s.outputs|
    case _ => true
  }

  /** `Next`: one step forward; leaving the fee step needs a generated psbt
      and starts a signature collector for it. */
  function NextStep(s: CreateView): CreateView {
    match s.step
    case WelcomeUser => s.(step := SelectOutputs)
    case SelectOutputs => s.(step := SelectInputs)
    case SelectInputs => s.(step := SelectFee)
    case SelectFee =>
      if s.psbt.Some? then s.(step := SignStep(NewSign(s.psbt.value.0, Spend))) else s
    case SignStep(_) => s
    case SuccessStep => s
  }

  /** `Previous`: one step back, and back to the outputs from anywhere else. */
  function PreviousStep(step: StepView): StepView {
    match step
    case SelectInputs => SelectOutputs
    case SelectFee => SelectInputs
    case SignStep(_) => SelectFee
    case _ => SelectOutputs
  }

  /** The spend-transaction messages of the creation update. */
  function SpendTxNext(s: CreateView, m: SpendTxMessage, decode: string -> Option<Psbt>,
                       parseAmount: string -> Option<nat>): (CreateView, Command)
    requires CreateNextDefined(s, SpendTxMsg(m), parseAmount)
  {
    match m
    case Generate =>
      (s.(processing := true, warning := None),
       GetSpendTx(Outpoints(SelectedInputs(s.vaults)), OutputMap(s.outputs, parseAmount), s.feerate))
    case FeerateEdited(f) =>
      if !s.processing then (s.(feerate := f, psbt := None), NoCommand) else (s, NoCommand)
    case SpendSigned(res) =>
      if res.Err? then (s.(warning := Some(res.error)), NoCommand)
      else if s.step.SignStep? then
        (s.(psbt := Some((s.step.signer.signedPsbt.value, s.psbt.value.1)), step := SuccessStep), NoCommand)
      else (s, NoCommand)
    case SpendSign(sm) =>
      if s.step.SignStep? then
        var signer := SignNext(s.step.signer, sm, decode);
        (s.(step := SignStep(signer)),
         if signer.signedPsbt.Some? then UpdateSpendTx(signer.signedPsbt.value) else NoCommand)
      else (s, NoCommand)
    case _ => (s, NoCommand)
  }

  /** The recipient edits as the source writes them: adding and deleting a
      recipient keep the generated psbt, editing one discards it. */
  function RecipientsEditAsWritten(s: CreateView, msg: Message, parseAmount: string -> Option<nat>,
                                   isAddress: string -> bool): CreateView
    requires msg.AddRecipient? || msg.Recipient?
    requires msg.Recipient? && msg.recipientMsg.Delete? ==> msg.index < |s.outputs|
  {
    if msg.AddRecipient? then s.(outputs := s.outputs + [NewOutput()])
    else if msg.recipientMsg.Delete? then s.(outputs := Remove(s.outputs, msg.index))
    else
      var i := msg.index;
      s.(psbt := None,
         outputs := if i < |s.outputs| then s.outputs[i := OutputNext(s.outputs[i], msg.recipientMsg, parseAmount, isAddress)]
                    else s.outputs)
  }

  /** The recipient edits as intended: a deleted recipient also discards the
      generated psbt, which no longer pays the listed recipients. */
  function RecipientsEdit(s: CreateView, msg: Message, parseAmount: string -> Option<nat>,
                          isAddress: string -> bool): CreateView
    requires msg.AddRecipient? || msg.Recipient?
    requires msg.Recipient? && msg.recipientMsg.Delete? ==> msg.index < |s.outputs|
  {
    var edited := RecipientsEditAsWritten(s, msg, parseAmount, isAddress);
    if msg.Recipient? then edited.(psbt := None) else edited
  }

  /** `ManagerCreateSendTransactionState::update` on values. */
  function CreateNext(s: CreateView, msg: Message, decode: string -> Option<Psbt>,
                      parseAmount: string -> Option<nat>, isAddress: string -> bool): (CreateView, Command)
    requires CreateNextDefined(s, msg, parseAmount)
  {
    match msg
    case SpendTransaction(res) =>
      if res.Ok? then (s.(processing := false, psbt := Some((res.value.spendTx, res.value.feerate))), NoCommand)
      else (s.(processing := false, warning := Some(res.error)), NoCommand)
    case SpendTxMsg(m) => SpendTxNext(s, m, decode, parseAmount)
    case Vaults(res) =>
      if res.Ok? then (s.(vaults := FreshInputs(res.value)), NoCommand)
      else (s.(warning := Some(res.error)), NoCommand)
    case Next => (NextStep(s), NoCommand)
    case Previous => (s.(step := PreviousStep(s.step)), NoCommand)
    case AddRecipient => (RecipientsEdit(s, msg, parseAmount, isAddress), NoCommand)
    case Recipient(_, _) => (RecipientsEdit(s, msg, parseAmount, isAddress), NoCommand)
    case Input(i, m) =>
      (s.(psbt := None,
          vaults := if i < |s.vaults| then s.vaults[i := SendInput(s.vaults[i].vault, m.selected)] else s.vaults),
       NoCommand)
    case _ => (s, NoCommand)
  }

  /** `ManagerCreateSendTransactionState::update` exactly as the source
      writes it: the same as `CreateNext` except that deleting a recipient
      keeps the generated psbt. */
  function CreateNextAsWritten(s: CreateView, msg: Message, decode: string -> Option<Psbt>,
                               parseAmount: string -> Option<nat>, isAddress: string -> bool): (CreateView, Command)
    requires CreateNextDefined(s, msg, parseAmount)
  {
    if msg.Recipient? && msg.recipientMsg.Delete? then (RecipientsEditAsWritten(s, msg, parseAmount, isAddress), NoCommand)
    else CreateNext(s, msg, decode, parseAmount, isAddress)
  }

  /** The wizard's invariant: a signature collector only ever holds a signed
      psbt of its own transaction, a spend, and every recipient's warnings
      are exact. */
  predicate CreateInvariant(s: CreateView, parseAmount: string -> Option<nat>, isAddress: string -> bool) {
    && (s.step.SignStep? ==> Admissible(s.step.signer) && s.step.signer.transactionKind == Spend)
    && AllWarningsExact(s.outputs, parseAmount, isAddress)
  }

  lemma NewCreateKeepsInvariant(parseAmount: string -> Option<nat>, isAddress: string -> bool)
    ensures CreateInvariant(NewCreate(), parseAmount, isAddress)
    ensures !OutputsStepReady(NewCreate())
  {
    assert !OutputValid(NewCreate().outputs[0]);
  }

  lemma CreateNextKeepsInvariant(s: CreateView, msg: Message, decode: string -> Option<Psbt>,
                                 parseAmount: string -> Option<nat>, isAddress: string -> bool)
    requires CreateNextDefined(s, msg, parseAmount)
    requires CreateInvariant(s, parseAmount, isAddress)
    ensures CreateInvariant(CreateNext(s, msg, decode, parseAmount, isAddress).0, parseAmount, isAddress)
  {
    var next := CreateNext(s, msg, decode, parseAmount, isAddress).0;
    match msg {
      case AddRecipient =>
        assert next.outputs == s.outputs + [NewOutput()];
        assert forall i :: 0 <= i < |next.outputs| ==>
          next.outputs[i] == if i < |s.outputs| then s.outputs[i] else NewOutput();
      case Recipient(i, m) =>
        if m.Delete? {
          assert next.outputs == Remove(s.outputs, i);
        } else if i < |s.outputs| {
          OutputNextKeepsWarningsExact(s.outputs[i], m, parseAmount, isAddress);
        }
      case _ =>
    }
  }

  /** With exact warnings, the outputs step's gate guarantees that generating
      the spend request does not panic. */
  lemma ReadyOutputsGenerate(s: CreateView, parseAmount: string -> Option<nat>, isAddress: string -> bool)
    requires CreateInvariant(s, parseAmount, isAddress)
    requires OutputsStepReady(s)
    ensures CreateNextDefined(s, SpendTxMsg(Generate), parseAmount)
  {
    forall i | 0 <= i < |s.outputs| ensures RecipientAmount(s.outputs[i], parseAmount).Ok? {
      ValidOutputParses(s.outputs[i], parseAmount, isAddress);
    }
  }

  /** Generating asks the daemon for a spend of exactly the selected vaults
      to the recipients' addresses at the chosen feerate, and marks the
      request in flight. */
  lemma GenerateRequestsSelection(s: CreateView, decode: string -> Option<Psbt>,
                                  parseAmount: string -> Option<nat>, isAddress: string -> bool)
    requires AllAmountsParse(s.outputs, parseAmount)
    ensures var (next, cmd) := CreateNext(s, SpendTxMsg(Generate), decode, parseAmount, isAddress);
            && next == s.(processing := true, warning := None)
            && cmd.GetSpendTx? && cmd.feerate == s.feerate
            && |cmd.inputs| == |SelectedInputs(s.vaults)|
            && (forall k :: 0 <= k < |cmd.inputs| ==> cmd.inputs[k] == SelectedInputs(s.vaults)[k].outpoint)
            && (forall a :: a in cmd.outputs <==> exists i :: 0 <= i < |s.outputs| && s.outputs[i].address == a)
  {
    OutputMapLastWins(s.outputs, parseAmount);
  }

  /** The daemon's answer ends the request: a proposal is stored, a failure
      shown. */
  lemma ProposalResponse(s: CreateView, p: SpendTxProposal, e: string, decode: string -> Option<Psbt>,
                         parseAmount: string -> Option<nat>, isAddress: string -> bool)
    ensures CreateNext(s, SpendTransaction(Ok(p)), decode, parseAmount, isAddress).0 ==
              s.(processing := false, psbt := Some((p.spendTx, p.feerate)))
    ensures CreateNext(s, SpendTransaction(Err(e)), decode, parseAmount, isAddress).0 ==
              s.(processing := false, warning := Some(e))
  {
  }

  /** The feerate cannot change while a request is in flight; otherwise a
      change discards the generated psbt. */
  lemma FeerateFrozenWhileProcessing(s: CreateView, f: nat, decode: string -> Option<Psbt>,
                                     parseAmount: string -> Option<nat>, isAddress: string -> bool)
    ensures s.processing ==> CreateNext(s, SpendTxMsg(FeerateEdited(f)), decode, parseAmount, isAddress) == (s, NoCommand)
    ensures !s.processing ==>
              CreateNext(s, SpendTxMsg(FeerateEdited(f)), decode, parseAmount, isAddress) == (s.(feerate := f, psbt := None), NoCommand)
  {
  }

  /** Every change to what the spend would pay or spend, other than adding
      an empty recipient, discards the generated psbt. */
  lemma EditsDiscardProposal(s: CreateView, msg: Message, decode: string -> Option<Psbt>,
                             parseAmount: string -> Option<nat>, isAddress: string -> bool)
    requires msg.Recipient? || msg.Input?
    requires CreateNextDefined(s, msg, parseAmount)
    ensures CreateNext(s, msg, decode, parseAmount, isAddress).0.psbt.None?
    ensures CreateNext(s, msg, decode, parseAmount, isAddress).0.step == s.step
  {
  }

  /** The as-written counterexample: after generating a psbt for two
      recipients, deleting one keeps the psbt that still pays both. */
  lemma DeleteKeepsStaleProposal(parseAmount: string -> Option<nat>, isAddress: string -> bool)
    ensures var p := Psbt("tx", []);
            var a := SendOutput("addr-a", "1", false, false);
            var b := SendOutput("addr-b", "2", false, false);
            var s := CreateView(None, [], [a, b], DefaultFeerate, Some((p, 3)), false, SelectFee);
            var after := RecipientsEditAsWritten(s, Recipient(1, Delete), parseAmount, isAddress);
            after.outputs == [a] && after.psbt == Some((p, 3))
  {
  }

  /** As written, deleting any recipient keeps the generated psbt and the
      step, whatever the state. */
  lemma DeleteKeepsProposalAsWritten(s: CreateView, i: nat, decode: string -> Option<Psbt>,
                                     parseAmount: string -> Option<nat>, isAddress: string -> bool)
    requires i < |s.outputs|
    ensures var (next, cmd) := CreateNextAsWritten(s, Recipient(i, Delete), decode, parseAmount, isAddress);
            && next.psbt == s.psbt && next.step == s.step
            && next.outputs == Remove(s.outputs, i) && cmd == NoCommand
    ensures CreateNext(s, Recipient(i, Delete), decode, parseAmount, isAddress).0.psbt.None?
  {
  }

  /** The source's update and the corrected one differ only in the psbt
      kept by a deletion, so the wizard invariant holds for both. */
  lemma AsWrittenDiffersOnlyOnDelete(s: CreateView, msg: Message, decode: string -> Option<Psbt>,
                                     parseAmount: string -> Option<nat>, isAddress: string -> bool)
    requires CreateNextDefined(s, msg, parseAmount)
    requires CreateInvariant(s, parseAmount, isAddress)
    ensures var written := CreateNextAsWritten(s, msg, decode, parseAmount, isAddress);
            var fixed := CreateNext(s, msg, decode, parseAmount, isAddress);
            && (msg.Recipient? && msg.recipientMsg.Delete? ==> written == (fixed.0.(psbt := s.psbt), fixed.1))
            && (!(msg.Recipient? && msg.recipientMsg.Delete?) ==> written == fixed)
            && CreateInvariant(written.0, parseAmount, isAddress)
  {
    CreateNextKeepsInvariant(s, msg, decode, parseAmount, isAddress);
  }

  /** The path of the finding, for any state: back at the outputs step with
      a generated psbt, deleting a recipient and pressing `Next` three times
      reaches the signature step over the generated psbt, which still pays
      the deleted recipient. The corrected update stops at the fee step
      with no psbt to sign. */
  lemma StaleProposalReachesSigning(s: CreateView, i: nat, decode: string -> Option<Psbt>,
                                    parseAmount: string -> Option<nat>, isAddress: string -> bool)
    requires s.step == SelectOutputs && s.psbt.Some? && i < |s.outputs|
    ensures var d := CreateNextAsWritten(s, Recipient(i, Delete), decode, parseAmount, isAddress).0;
            var n1 := CreateNextAsWritten(d, Next, decode, parseAmount, isAddress).0;
            var n2 := CreateNextAsWritten(n1, Next, decode, parseAmount, isAddress).0;
            var n3 := CreateNextAsWritten(n2, Next, decode, parseAmount, isAddress).0;
            && n3.outputs == Remove(s.outputs, i)
            && n3.step == SignStep(NewSign(s.psbt.value.0, Spend))
    ensures var d := CreateNext(s, Recipient(i, Delete), decode, parseAmount, isAddress).0;
            var n1 := CreateNext(d, Next, decode, parseAmount, isAddress).0;
            var n2 := CreateNext(n1, Next, decode, parseAmount, isAddress).0;
            var n3 := CreateNext(n2, Next, decode, parseAmount, isAddress).0;
            && n3.outputs == Remove(s.outputs, i)
            && n3.step == SelectFee && n3.psbt.None?
  {
  }

  /** The wizard moves one step at a time: `Next` advances by one, and from
      the fee step only once a psbt is generated; `Previous` never moves
      forward past the fee step. */
  lemma StepsAdvanceOneAtATime(s: CreateView, decode: string -> Option<Psbt>,
                               parseAmount: string -> Option<nat>, isAddress: string -> bool)
    ensures var next := CreateNext(s, Next, decode, parseAmount, isAddress).0;
            && (StepIndex(next.step) == StepIndex(s.step) || StepIndex(next.step) == StepIndex(s.step) + 1)
            && (StepIndex(next.step) == StepIndex(s.step) + 1 <==>
                  StepIndex(s.step) < 3 || (s.step == SelectFee && s.psbt.Some?))
            && (next.step.SignStep? && !s.step.SignStep? ==> next.step.signer == NewSign(s.psbt.value.0, Spend))
    ensures var prev := CreateNext(s, Previous, decode, parseAmount, isAddress).0;
            && 1 <= StepIndex(prev.step) <= 3
            && (2 <= StepIndex(s.step) <= 4 ==> StepIndex(prev.step) == StepIndex(s.step) - 1)
  {
  }

  /** The wizard only reaches its last step from the signature step, on the
      daemon's acknowledgement of the signed psbt, and the stored psbt is
      then a signed version of the generated transaction at the same
      feerate. */
  lemma SuccessOnlyAfterSigning(s: CreateView, msg: Message, decode: string -> Option<Psbt>,
                                parseAmount: string -> Option<nat>, isAddress: string -> bool)
    requires CreateNextDefined(s, msg, parseAmount)
    requires CreateInvariant(s, parseAmount, isAddress)
    ensures var next := CreateNext(s, msg, decode, parseAmount, isAddress).0;
            next.step.SuccessStep? && !s.step.SuccessStep? ==>
              && s.step.SignStep? && msg.SpendTxMsg? && msg.spendMsg.SpendSigned? && msg.spendMsg.signed.Ok?
              && next.psbt == Some((s.step.signer.signedPsbt.value, s.psbt.value.1))
              && next.psbt.value.0.unsignedTxid == s.step.signer.originalPsbt.unsignedTxid
  {
  }

  /** A signed psbt is sent to the daemon only from the signature step, and
      only one for the transaction being signed. */
  lemma SignedSpendSentOnlyIfAdmissible(s: CreateView, sm: SignMessage, decode: string -> Option<Psbt>,
                                        parseAmount: string -> Option<nat>, isAddress: string -> bool)
    requires CreateInvariant(s, parseAmount, isAddress)
    ensures var (next, cmd) := CreateNext(s, SpendTxMsg(SpendSign(sm)), decode, parseAmount, isAddress);
            && (cmd.UpdateSpendTx? ==>
                  s.step.SignStep? && cmd.psbt.unsignedTxid == s.step.signer.originalPsbt.unsignedTxid)
            && (!s.step.SignStep? ==> next == s && cmd == NoCommand)
  {
  }

  // ---------------------------------------------------------------------
  // Importing a psbt, on values

  datatype ImportView = ImportView(psbtImported: Option<Psbt>, psbtInput: string, warning: Option<string>)

  function NewImport(): ImportView {
    ImportView(None, "", None)
  }

  /** `ManagerImportSendTransactionState::update` on values. */
  function ImportNext(s: ImportView, msg: Message, decode: string -> Option<Psbt>): (ImportView, Command) {
    match msg
    case SpendTxMsg(m) =>
      (match m
       case Updated(res) =>
         if res.Ok? then (s.(psbtImported := decode(s.psbtInput)), NoCommand)
         else (s.(warning := Some(res.error)), NoCommand)
       case ImportEdited(input) => (s.(warning := None, psbtInput := input), NoCommand)
       case Import =>
         if s.psbtInput != "" && decode(s.psbtInput).Some? then (s, UpdateSpendTx(decode(s.psbtInput).value))
         else (s.(warning := Some(InvalidPsbtWarning)), NoCommand)
       case _ => (s, NoCommand))
    case _ => (s, NoCommand)
  }

  /** Importing sends the pasted psbt to the daemon exactly when it is not
      empty and decodes; otherwise it only raises the invalid-psbt warning. */
  lemma ImportSendsOnlyDecodedPsbt(s: ImportView, decode: string -> Option<Psbt>)
    ensures var (next, cmd) := ImportNext(s, SpendTxMsg(Import), decode);
            && (cmd != NoCommand <==> s.psbtInput != "" && decode(s.psbtInput).Some?)
            && (cmd != NoCommand ==> cmd == UpdateSpendTx(decode(s.psbtInput).value) && next == s)
            && (cmd == NoCommand ==> next == s.(warning := Some(InvalidPsbtWarning)))
  {
  }

  /** Once the daemon stored the psbt, the screen shows the decoded input;
      a failure is shown as a warning; an edit clears the warning. */
  lemma ImportResponses(s: ImportView, e: string, input: string, decode: string -> Option<Psbt>)
    ensures ImportNext(s, SpendTxMsg(Updated(Ok(()))), decode) == (s.(psbtImported := decode(s.psbtInput)), NoCommand)
    ensures ImportNext(s, SpendTxMsg(Updated(Err(e))), decode) == (s.(warning := Some(e)), NoCommand)
    ensures ImportNext(s, SpendTxMsg(ImportEdited(input)), decode) == (ImportView(s.psbtImported, input, None), NoCommand)
  {
  }

  // ---------------------------------------------------------------------
  // The send screen, on values

  /** The send screen is in one of three modes; the detail mode holds the
      chosen spend transaction. */
  datatype SendView =
    | CreatingView(create: CreateView)
    | ImportingView(importing: ImportView)
    | DetailView(psbt: Psbt)

  function NewSend(): SendView {
    CreatingView(NewCreate())
  }

  /** `ManagerSendState::load`: the current mode's load (importing loads
      nothing). */
  function SendLoad(s: SendView): Command {
    match s
    case CreatingView(_) => CreateLoad()
    case ImportingView(_) => NoCommand
    case DetailView(p) => LoadSpendTx(p)
  }

  predicate SendNextDefined(s: SendView, msg: Message, parseAmount: string -> Option<nat>) {
    s.CreatingView? ==> CreateNextDefined(s.create, msg, parseAmount)
  }

  /** `ManagerSendState::update` on values: `Import` leaves the wizard for
      the import screen, choosing a psbt there opens its detail screen, and
      each mode's own update handles the rest. */
  function SendNext(s: SendView, msg: Message, decode: string -> Option<Psbt>,
                    parseAmount: string -> Option<nat>, isAddress: string -> bool): (SendView, Command)
    requires SendNextDefined(s, msg, parseAmount)
  {
    match s
    case CreatingView(c) =>
      if msg == SpendTxMsg(Import) then (ImportingView(NewImport()), SendLoad(ImportingView(NewImport())))
      else
        var (c', cmd) := CreateNext(c, msg, decode, parseAmount, isAddress);
        (CreatingView(c'), cmd)
    case ImportingView(i) =>
      if msg.SpendTxMsg? && msg.spendMsg.SelectTx? then
        (DetailView(msg.spendMsg.psbt), SendLoad(DetailView(msg.spendMsg.psbt)))
      else
        var (i', cmd) := ImportNext(i, msg, decode);
        (ImportingView(i'), cmd)
    case DetailView(_) => (s, ForwardSpendTx(msg))
  }

  function ModeIndex(s: SendView): nat {
    match s
    case CreatingView(_) => 0
    case ImportingView(_) => 1
    case DetailView(_) => 2
  }

  /** The modes only move forward, one at a time: the wizard is left only
      by `Import`, the import screen only by choosing a psbt, which the
      detail screen then keeps for good. */
  lemma SendModesMoveForward(s: SendView, msg: Message, decode: string -> Option<Psbt>,
                             parseAmount: string -> Option<nat>, isAddress: string -> bool)
    requires SendNextDefined(s, msg, parseAmount)
    ensures var (next, cmd) := SendNext(s, msg, decode, parseAmount, isAddress);
            && (ModeIndex(next) == ModeIndex(s) || ModeIndex(next) == ModeIndex(s) + 1)
            && (s.CreatingView? && next.ImportingView? <==> s.CreatingView? && msg == SpendTxMsg(Import))
            && (s.CreatingView? && next.ImportingView? ==> next == ImportingView(NewImport()) && cmd == NoCommand)
            && (s.ImportingView? && next.DetailView? <==> s.ImportingView? && msg.SpendTxMsg? && msg.spendMsg.SelectTx?)
            && (s.ImportingView? && next.DetailView? ==> next.psbt == msg.spendMsg.psbt && cmd == LoadSpendTx(next.psbt))
            && (s.DetailView? ==> next == s && cmd == ForwardSpendTx(msg))
  {
  }

  lemma SendNextKeepsInvariant(s: SendView, msg: Message, decode: string -> Option<Psbt>,
                               parseAmount: string -> Option<nat>, isAddress: string -> bool)
    requires SendNextDefined(s, msg, parseAmount)
    requires s.CreatingView? ==> CreateInvariant(s.create, parseAmount, isAddress)
    ensures var next := SendNext(s, msg, decode, parseAmount, isAddress).0;
            next.CreatingView? ==> CreateInvariant(next.create, parseAmount, isAddress)
  {
    if s.CreatingView? && msg != SpendTxMsg(Import) {
      CreateNextKeepsInvariant(s.create, msg, decode, parseAmount, isAddress);
    }
  }

  // ---------------------------------------------------------------------
  // The objects

  /** The wizard's steps; only the signature step owns an object. */
  datatype ManagerSendStep = Welcome | Outputs | Inputs | Fee | SignWith(signer: SignState) | Created

  function StepOf(step: ManagerSendStep): StepView
    reads if step.SignWith? then {step.signer} else {}
  {
    match step
    case Welcome => WelcomeUser
    case Outputs => SelectOutputs
    case Inputs => SelectInputs
    case Fee => SelectFee
    case SignWith(signer) => SignStep(signer.View())
    case Created => SuccessStep
  }

  class ManagerCreateSendTransactionState {
    var warning: Option<string>
    var vaults: seq<SendInput>
    var outputs: seq<SendOutput>
    var feerate: nat
    var psbt: Option<(Psbt, nat)>
    var processing: bool
    var step: ManagerSendStep
    ghost var Repr: set<object>

    ghost predicate Valid()
      reads this, Repr
    {
      && this in Repr
      && (step.SignWith? ==> Repr == {this, step.signer})
      && (!step.SignWith? ==> Repr == {this})
    }

    function View(): CreateView
      reads this, Repr
      requires Valid()
    {
      CreateView(warning, vaults, outputs, feerate, psbt, processing, StepOf(step))
    }

    constructor ()
      ensures Valid() && fresh(Repr)
      ensures View() == NewCreate()
    {
      warning := None;
      vaults := [];
      outputs := [NewOutput()];
      feerate := DefaultFeerate;
      psbt := None;
      processing := false;
      step := Welcome;
      Repr := {this};
    }

    method Load() returns (cmd: Command)
      ensures cmd == CreateLoad()
    {
      cmd := Batch([ListVaults(Some([Active]))]);
    }

    method UpdateVaults(vs: seq<Vault>)
      requires Valid()
      modifies this
      ensures Valid() && Repr == old(Repr)
      ensures View() == old(View()).(vaults := FreshInputs(vs))
    {
      vaults := FreshInputs(vs);
    }

    /** `input_amount`: the amount of the selected vaults. */
    method InputAmount() returns (total: nat)
      ensures total == Total(SelectedInputs(vaults))
    {
      total := 0;
      for i := 0 to |vaults|
        invariant total == InputTotal(vaults[..i])
      {
        assert vaults[..i + 1][..i] == vaults[..i];
        if vaults[i].selected {
          total := total + vaults[i].vault.amount;
        }
      }
      assert vaults[..|vaults|] == vaults;
      InputTotalIsSelectedTotal(vaults);
    }

    /** `output_amount`: the sum of the recipients' amounts that parse. */
    method OutputAmount(parseAmount: string -> Option<nat>) returns (total: nat)
      ensures total == OutputTotal(outputs, parseAmount)
    {
      total := 0;
      for i := 0 to |outputs|
        invariant total == OutputTotal(outputs[..i], parseAmount)
      {
        assert outputs[..i + 1][..i] == outputs[..i];
        var amount := RecipientAmount(outputs[i], parseAmount);
        if amount.Ok? {
          total := total + amount.value;
        }
      }
      assert outputs[..|outputs|] == outputs;
    }

    method OnNext()
      requires Valid()
      modifies this
      ensures Valid() && fresh(Repr - old(Repr))
      ensures View() == NextStep(old(View()))
    {
      match step
      case Welcome => step := Outputs;
      case Outputs => step := Inputs;
      case Inputs => step := Fee;
      case Fee =>
        if psbt.Some? {
          var signer := new SignState(psbt.value.0, Spend);
          step := SignWith(signer);
          Repr := {this, signer};
        }
      case SignWith(_) =>
      case Created =>
    }

    method OnPrevious()
      requires Valid()
      modifies this
      ensures Valid() && Repr <= old(Repr)
      ensures View() == old(View()).(step := PreviousStep(old(View()).step))
    {
      match step {
        case Inputs => step := Outputs;
        case Fee => step := Inputs;
        case SignWith(_) => step := Fee;
        case _ => step := Outputs;
      }
      Repr := {this};
    }

    method OnSpendTx(m: SpendTxMessage, decode: string -> Option<Psbt>, parseAmount: string -> Option<nat>)
      returns (cmd: Command)
      requires Valid() && CreateNextDefined(View(), SpendTxMsg(m), parseAmount)
      modifies Repr
      ensures Valid() && Repr <= old(Repr)
      ensures (View(), cmd) == SpendTxNext(old(View()), m, decode, parseAmount)
    {
      cmd := NoCommand;
      match m
      case Generate =>
        processing := true;
        warning := None;
        cmd := GetSpendTx(Outpoints(SelectedInputs(vaults)), OutputMap(outputs, parseAmount), feerate);
      case FeerateEdited(f) =>
        if !processing {
          feerate := f;
          psbt := None;
        }
      case SpendSigned(res) =>
        if res.Err? {
          warning := Some(res.error);
        } else if step.SignWith? {
          var signer := step.signer;
          psbt := Some((signer.signedPsbt.value, psbt.value.1));
          signer.Update(SignMessage.Success, decode);
          step := Created;
          Repr := {this};
        }
      case SpendSign(sm) =>
        if step.SignWith? {
          var signer := step.signer;
          signer.Update(sm, decode);
          if signer.signedPsbt.Some? {
            cmd := UpdateSpendTx(signer.signedPsbt.value);
          }
        }
      case _ =>
    }

    method Update(msg: Message, decode: string -> Option<Psbt>, parseAmount: string -> Option<nat>,
                  isAddress: string -> bool) returns (cmd: Command)
      requires Valid() && CreateNextDefined(View(), msg, parseAmount)
      modifies Repr
      ensures Valid() && fresh(Repr - old(Repr))
      ensures (View(), cmd) == CreateNext(old(View()), msg, decode, parseAmount, isAddress)
    {
      cmd := NoCommand;
      match msg
      case SpendTransaction(res) =>
        processing := false;
        if res.Ok? {
          psbt := Some((res.value.spendTx, res.value.feerate));
        } else {
          warning := Some(res.error);
        }
      case SpendTxMsg(m) =>
        cmd := OnSpendTx(m, decode, parseAmount);
      case Vaults(res) =>
        if res.Ok? {
          UpdateVaults(res.value);
        } else {
          warning := Some(res.error);
        }
      case Next =>
        OnNext();
      case Previous =>
        OnPrevious();
      case AddRecipient =>
        outputs := outputs + [NewOutput()];
      case Recipient(i, m) =>
        psbt := None;
        if m.Delete? {
          outputs := outputs[..i] + outputs[i + 1..];
        } else if i < |outputs| {
          outputs := outputs[i := OutputNext(outputs[i], m, parseAmount, isAddress)];
        }
      case Input(i, m) =>
        psbt := None;
        if i < |vaults| {
          vaults := vaults[i := SendInput(vaults[i].vault, m.selected)];
        }
      case _ =>
    }
  }

  class ManagerImportSendTransactionState {
    var psbtImported: Option<Psbt>
    var psbtInput: string
    var warning: Option<string>

    function View(): ImportView
      reads this
    {
      ImportView(psbtImported, psbtInput, warning)
    }

    constructor ()
      ensures View() == NewImport()
    {
      psbtImported := None;
      psbtInput := "";
      warning := None;
    }

    method Load() returns (cmd: Command)
      ensures cmd == SendLoad(ImportingView(View()))
    {
      cmd := NoCommand;
    }

    method Update(msg: Message, decode: string -> Option<Psbt>) returns (cmd: Command)
      modifies this
      ensures (View(), cmd) == ImportNext(old(View()), msg, decode)
    {
      cmd := NoCommand;
      match msg
      case SpendTxMsg(m) =>
        match m {
          case Updated(res) =>
            if res.Ok? {
              psbtImported := decode(psbtInput);
            } else {
              warning := Some(res.error);
            }
          case ImportEdited(input) =>
            warning := None;
            psbtInput := input;
          case Import =>
            var decoded := decode(psbtInput);
            if psbtInput != "" && decoded.Some? {
              cmd := UpdateSpendTx(decoded.value);
            } else {
              warning := Some(InvalidPsbtWarning);
            }
          case _ =>
        }
      case _ =>
    }
  }

  /** The send screen's current mode and the object it owns. */
  datatype SendMode =
    | Creating(create: ManagerCreateSendTransactionState)
    | Importing(importer: ManagerImportSendTransactionState)
    | Detail(chosen: Psbt)

  class ManagerSendState {
    var mode: SendMode
    ghost var Repr: set<object>

    ghost predicate Valid()
      reads this, Repr
    {
      && this in Repr
      && match mode {
           case Creating(c) => c in Repr && c.Repr <= Repr && Repr == {this} + c.Repr && this !in c.Repr && c.Valid()
           case Importing(i) => Repr == {this, i}
           case Detail(_) => Repr == {this}
         }
    }

    function View(): SendView
      reads this, Repr
      requires Valid()
    {
      match mode
      case Creating(c) => CreatingView(c.View())
      case Importing(i) => ImportingView(i.View())
      case Detail(p) => DetailView(p)
    }

    constructor ()
      ensures Valid() && fresh(Repr)
      ensures View() == NewSend()
    {
      var c := new ManagerCreateSendTransactionState();
      mode := Creating(c);
      Repr := {this} + c.Repr;
    }

    method Load() returns (cmd: Command)
      requires Valid()
      ensures cmd == SendLoad(View())
    {
      match mode
      case Creating(c) => cmd := c.Load();
      case Importing(i) => cmd := i.Load();
      case Detail(p) => cmd := LoadSpendTx(p);
    }

    method Update(msg: Message, decode: string -> Option<Psbt>, parseAmount: string -> Option<nat>,
                  isAddress: string -> bool) returns (cmd: Command)
      requires Valid() && SendNextDefined(View(), msg, parseAmount)
      modifies Repr
      ensures Valid() && fresh(Repr - old(Repr))
      ensures (View(), cmd) == SendNext(old(View()), msg, decode, parseAmount, isAddress)
    {
      match mode
      case Creating(c) =>
        if msg == SpendTxMsg(Import) {
          var i := new ManagerImportSendTransactionState();
          mode := Importing(i);
          Repr := {this, i};
          cmd := Load();
        } else {
          cmd := c.Update(msg, decode, parseAmount, isAddress);
          Repr := {this} + c.Repr;
        }
      case Importing(i) =>
        if msg.SpendTxMsg? && msg.spendMsg.SelectTx? {
          mode := Detail(msg.spendMsg.psbt);
          Repr := {this};
          cmd := Load();
        } else {
          cmd := i.Update(msg, decode);
        }
      case Detail(_) =>
        cmd := ForwardSpendTx(msg);
    }
  }
}
