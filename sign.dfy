/** The signature collector: a widget-free state machine that holds the psbt
    to be signed and accepts a signed psbt for it, either from a directly
    attached signer or pasted by the operator (base64). Its one admissibility
    rule: a signed psbt is kept only if its unsigned transaction is the
    original's. */
module Signing {
  import opened Model

  const InvalidPsbtWarning: string := "Please enter valid PSBT"
  const NotTargetedWarning: string := "PSBT is not the targeted transaction to sign"

  datatype SharingStatus = Unshared | Success

  /** How the psbt gets signed. Only the indirect method has an input field
      and a warning. */
  datatype SignMethod =
    | DirectSignature
    | IndirectSignature(warning: Option<string>, psbtInput: string)

  /** The value of a signature collector. */
  datatype SignView = SignView(
    originalPsbt: Psbt,
    signedPsbt: Option<Psbt>,
    transactionKind: TransactionKind,
    sharingStatus: SharingStatus,
    signMethod: SignMethod)

  function NewSign(originalPsbt: Psbt, kind: TransactionKind): SignView {
    SignView(originalPsbt, None, kind, Unshared, DirectSignature)
  }

  /** A signed psbt, if any, signs the original's unsigned transaction. */
  predicate Admissible(s: SignView) {
    s.signedPsbt.Some? ==> s.signedPsbt.value.unsignedTxid == s.originalPsbt.unsignedTxid
  }

  /** Why a pasted psbt is refused: it does not decode, or it is another
      transaction. `None` when it is accepted. */
  function Rejection(original: Psbt, decoded: Option<Psbt>): Option<string> {
    if decoded.None? then Some(InvalidPsbtWarning)
    else if decoded.value.unsignedTxid != original.unsignedTxid then Some(NotTargetedWarning)
    else None
  }

  /** A warning on display is the one the current input deserves: it is only
      ever set by `Sign` and cleared by every edit. */
  predicate WarningAccurate(s: SignView, decode: string -> Option<Psbt>) {
    s.signMethod.IndirectSignature? && s.signMethod.warning.Some? ==>
      s.signMethod.psbtInput != "" && s.signMethod.warning == Rejection(s.originalPsbt, decode(s.signMethod.psbtInput))
  }

  predicate SignInvariant(s: SignView, decode: string -> Option<Psbt>) {
    Admissible(s) && WarningAccurate(s, decode)
  }

  /** `SignState::update` on values; `decode` is base64 decoding followed by
      psbt deserialization. */
  function SignNext(s: SignView, msg: SignMessage, decode: string -> Option<Psbt>): SignView {
    match msg
    case Success => s.(sharingStatus := SharingStatus.Success)
    case PsbtEdited(input) =>
      if s.signMethod.IndirectSignature? then s.(signMethod := IndirectSignature(None, input)) else s
    case Sign =>
      if s.signMethod.IndirectSignature? && s.signMethod.psbtInput != "" then
        var decoded := decode(s.signMethod.psbtInput);
        if decoded.None? then
          s.(signedPsbt := None, signMethod := s.signMethod.(warning := Some(InvalidPsbtWarning)))
        else if decoded.value.unsignedTxid != s.originalPsbt.unsignedTxid then
          s.(signedPsbt := None, signMethod := s.signMethod.(warning := Some(NotTargetedWarning)))
        else
          s.(signedPsbt := decoded)
      else s
    case ChangeMethod =>
      if s.signMethod.DirectSignature? then s.(signMethod := IndirectSignature(None, ""))
      else s.(signMethod := DirectSignature)
    case Clipboard(_) => s
  }

  /** The collector after a sequence of messages. */
  function SignRun(s: SignView, msgs: seq<SignMessage>, decode: string -> Option<Psbt>): SignView
    decreases |msgs|
  {
    if |msgs| == 0 then s else SignRun(SignNext(s, msgs[0], decode), msgs[1..], decode)
  }

  lemma NewSignIsFresh(original: Psbt, kind: TransactionKind, decode: string -> Option<Psbt>)
    ensures NewSign(original, kind).signedPsbt == None
    ensures NewSign(original, kind).sharingStatus == Unshared
    ensures NewSign(original, kind).signMethod == DirectSignature
    ensures SignInvariant(NewSign(original, kind), decode)
  {
  }

  lemma SuccessOnlyShares(s: SignView, decode: string -> Option<Psbt>)
    ensures SignNext(s, SignMessage.Success, decode) == s.(sharingStatus := SharingStatus.Success)
  {
  }

  /** Entering the indirect method starts from an empty input and no warning;
      toggling twice from the direct method is the identity. */
  lemma ChangeMethodToggles(s: SignView, decode: string -> Option<Psbt>)
    ensures s.signMethod.DirectSignature? ==>
              SignNext(s, ChangeMethod, decode) == s.(signMethod := IndirectSignature(None, ""))
    ensures s.signMethod.IndirectSignature? ==>
              SignNext(s, ChangeMethod, decode) == s.(signMethod := DirectSignature)
    ensures s.signMethod.DirectSignature? ==>
              SignNext(SignNext(s, ChangeMethod, decode), ChangeMethod, decode) == s
  {
  }

  lemma PsbtEditedOnlyInIndirect(s: SignView, input: string, decode: string -> Option<Psbt>)
    ensures s.signMethod.DirectSignature? ==> SignNext(s, PsbtEdited(input), decode) == s
    ensures s.signMethod.IndirectSignature? ==>
              SignNext(s, PsbtEdited(input), decode) == s.(signMethod := IndirectSignature(None, input))
  {
  }

  /** `Sign` outside the indirect method, or with an empty input, does nothing;
      otherwise the pasted psbt is kept exactly when it decodes to the
      original's transaction, and each refusal sets its own warning. */
  lemma SignOutcome(s: SignView, decode: string -> Option<Psbt>)
    ensures (s.signMethod.DirectSignature? || s.signMethod.psbtInput == "") ==> SignNext(s, Sign, decode) == s
    ensures s.signMethod.IndirectSignature? && s.signMethod.psbtInput != "" ==>
      var r := SignNext(s, Sign, decode);
      var decoded := decode(s.signMethod.psbtInput);
      && r.originalPsbt == s.originalPsbt
      && r.transactionKind == s.transactionKind
      && r.sharingStatus == s.sharingStatus
      && r.signMethod.IndirectSignature?
      && r.signMethod.psbtInput == s.signMethod.psbtInput
      && (r.signedPsbt.Some? <==> Rejection(s.originalPsbt, decoded).None?)
      && (r.signedPsbt.Some? ==> r.signedPsbt == decoded && r.signMethod.warning == s.signMethod.warning)
      && (decoded.None? ==> r.signedPsbt.None? && r.signMethod.warning == Some(InvalidPsbtWarning))
      && (decoded.Some? && decoded.value.unsignedTxid != s.originalPsbt.unsignedTxid ==>
            r.signedPsbt.None? && r.signMethod.warning == Some(NotTargetedWarning))
  {
  }

  /** One update keeps the invariant. */
  lemma SignNextKeepsInvariant(s: SignView, msg: SignMessage, decode: string -> Option<Psbt>)
    requires SignInvariant(s, decode)
    ensures SignInvariant(SignNext(s, msg, decode), decode)
    ensures SignNext(s, msg, decode).originalPsbt == s.originalPsbt
    ensures SignNext(s, msg, decode).transactionKind == s.transactionKind
  {
  }

  /** Every collector reachable from a fresh one holds only an admissible
      signed psbt, for any sequence of messages. */
  lemma {:induction false} SignRunKeepsInvariant(s: SignView, msgs: seq<SignMessage>, decode: string -> Option<Psbt>)
    requires SignInvariant(s, decode)
    ensures SignInvariant(SignRun(s, msgs, decode), decode)
    ensures SignRun(s, msgs, decode).originalPsbt == s.originalPsbt
    ensures SignRun(s, msgs, decode).transactionKind == s.transactionKind
    decreases |msgs|
  {
    if |msgs| > 0 {
      SignNextKeepsInvariant(s, msgs[0], decode);
      SignRunKeepsInvariant(SignNext(s, msgs[0], decode), msgs[1..], decode);
    }
  }

  /** The source does not clear the warning when a pasted psbt is accepted;
      under the invariant there is none to clear. */
  lemma AcceptedSignatureHasNoWarning(s: SignView, decode: string -> Option<Psbt>)
    requires WarningAccurate(s, decode)
    requires s.signMethod.IndirectSignature? && s.signMethod.psbtInput != ""
    requires Rejection(s.originalPsbt, decode(s.signMethod.psbtInput)).None?
    ensures SignNext(s, Sign, decode).signedPsbt == decode(s.signMethod.psbtInput)
    ensures SignNext(s, Sign, decode).signMethod == IndirectSignature(None, s.signMethod.psbtInput)
  {
  }

  /** The signature collector object. */
  class SignState {
    const originalPsbt: Psbt
    const transactionKind: TransactionKind
    var signedPsbt: Option<Psbt>
    var sharingStatus: SharingStatus
    var signMethod: SignMethod

    function View(): SignView
      reads this
    {
      SignView(originalPsbt, signedPsbt, transactionKind, sharingStatus, signMethod)
    }

    constructor (originalPsbt: Psbt, transactionKind: TransactionKind)
      ensures View() == NewSign(originalPsbt, transactionKind)
    {
      this.originalPsbt := originalPsbt;
      this.transactionKind := transactionKind;
      signedPsbt := None;
      sharingStatus := Unshared;
      signMethod := DirectSignature;
    }

    method Update(msg: SignMessage, decode: string -> Option<Psbt>)
      modifies this
      ensures View() == SignNext(old(View()), msg, decode)
    {
      match msg
      case Success =>
        sharingStatus := SharingStatus.Success;
      case PsbtEdited(input) =>
        if signMethod.IndirectSignature? {
          signMethod := signMethod.(warning := None, psbtInput := input);
        }
      case Sign =>
        if signMethod.IndirectSignature? && signMethod.psbtInput != "" {
          signedPsbt := decode(signMethod.psbtInput);
          if signedPsbt.Some? {
            if signedPsbt.value.unsignedTxid != originalPsbt.unsignedTxid {
              signedPsbt := None;
              signMethod := signMethod.(warning := Some(NotTargetedWarning));
            }
          } else {
            signMethod := signMethod.(warning := Some(InvalidPsbtWarning));
          }
        }
      case ChangeMethod =>
        if signMethod.DirectSignature? {
          signMethod := IndirectSignature(None, "");
        } else {
          signMethod := DirectSignature;
        }
      case Clipboard(_) =>
    }
  }
}
