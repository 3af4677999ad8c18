/** The selected-vault widget: one vault, an optional warning, and the section
    that is active for it. The `Acknowledge` section is the revocation chain
    (emergency, then emergency-unvault, then cancel), the `Delegate` section
    signs the unvault transaction. Daemon calls are returned as `Command`s. */
module VaultWidget {
  import opened Model
  import opened Signing

  /** The value of a vault section. */
  datatype SectionView =
    | UnloadedView
    | OnchainView(txs: VaultTransactions)
    | DelegateView(signer: SignView, warning: Option<string>)
    | AcknowledgeView(
        emergencyTx: (Psbt, bool),
        emergencyUnvaultTx: (Psbt, bool),
        cancelTx: (Psbt, bool),
        warning: Option<string>,
        signer: SignView)

  /** The value of a selected vault. */
  datatype VaultView = VaultView(vault: Vault, warning: Option<string>, section: SectionView)

  function FreshVault(vault: Vault): VaultView {
    VaultView(vault, None, UnloadedView)
  }

  function FreshDelegate(unvaultTx: Psbt): SectionView {
    DelegateView(NewSign(unvaultTx, Unvault), None)
  }

  function FreshAcknowledge(txs: RevocationTransactions): SectionView {
    AcknowledgeView((txs.emergencyTx, false), (txs.emergencyUnvaultTx, false), (txs.cancelTx, false),
                    None, NewSign(txs.emergencyTx, Emergency))
  }

  /** The invariant of the signing sections. The delegate signer signs an
      unvault transaction. In the revocation chain the flags are set in order
      (cancel, then emergency-unvault, then emergency, read backwards), and the
      signer is the one for the first member not yet signed: its original is
      that member's stored psbt until the member is signed. */
  predicate SectionInvariant(sec: SectionView) {
    match sec
    case DelegateView(signer, _) =>
      Admissible(signer) && signer.transactionKind == Unvault
    case AcknowledgeView(e, eu, c, _, signer) =>
      && Admissible(signer)
      && (c.1 ==> eu.1)
      && (eu.1 ==> e.1)
      && (!e.1 ==> signer.transactionKind == Emergency && signer.originalPsbt == e.0)
      && (e.1 && !eu.1 ==> signer.transactionKind == EmergencyUnvault && signer.originalPsbt == eu.0)
      && (eu.1 ==> signer.transactionKind == Cancel && signer.originalPsbt.unsignedTxid == c.0.unsignedTxid)
      && (eu.1 && !c.1 ==> signer.originalPsbt == c.0)
    case _ => true
  }

  /** The unsigned transaction ids of the three revocation members. */
  function ChainTxids(sec: SectionView): (Txid, Txid, Txid)
    requires sec.AcknowledgeView?
  {
    (sec.emergencyTx.0.unsignedTxid, sec.emergencyUnvaultTx.0.unsignedTxid, sec.cancelTx.0.unsignedTxid)
  }

  /** `VaultSection::update` on values: only signing messages reach a section. */
  function SectionNext(sec: SectionView, outpoint: Outpoint, msg: VaultMessage,
                       decode: string -> Option<Psbt>): (SectionView, Command)
  {
    match msg
    case Signed(res) =>
      (match sec
       case DelegateView(signer, w) =>
         if res.Ok? then (DelegateView(SignNext(signer, SignMessage.Success, decode), w), NoCommand)
         else (DelegateView(signer, Some(res.error)), NoCommand)
       case AcknowledgeView(e, eu, c, w, signer) =>
         if res.Ok? then (AcknowledgeView(e, eu, c, w, SignNext(signer, SignMessage.Success, decode)), NoCommand)
         else (AcknowledgeView(e, eu, c, Some(res.error), signer), NoCommand)
       case _ => (sec, NoCommand))
    case SignMsg(m) =>
      (match sec
       case DelegateView(signer, w) =>
         var s := SignNext(signer, m, decode);
         (DelegateView(s, w), if s.signedPsbt.Some? then SetUnvaultTx(outpoint, s.signedPsbt.value) else NoCommand)
       case AcknowledgeView(e, eu, c, w, signer) =>
         var s := SignNext(signer, m, decode);
         if s.signedPsbt.None? then (AcknowledgeView(e, eu, c, w, s), NoCommand)
         else
           var psbt := s.signedPsbt.value;
           (match s.transactionKind
            case Emergency =>
              (AcknowledgeView((psbt, true), eu, c, w, NewSign(eu.0, EmergencyUnvault)), NoCommand)
            case EmergencyUnvault =>
              (AcknowledgeView(e, (psbt, true), c, w, NewSign(c.0, Cancel)), NoCommand)
            case Cancel =>
              (AcknowledgeView(e, eu, (psbt, true), w, s), SetRevocationTxs(outpoint, e.0, eu.0, psbt))
            case _ => (AcknowledgeView(e, eu, c, w, s), NoCommand))
       case _ => (sec, NoCommand))
    case _ => (sec, NoCommand)
  }

  /** `Vault::update` on values. */
  function VaultNext(v: VaultView, msg: VaultMessage, decode: string -> Option<Psbt>): (VaultView, Command) {
    match msg
    case ListOnchainTransaction => (v, GetOnchainTxs(v.vault.outpoint))
    case OnChainTransactions(res) =>
      if res.Ok? then (v.(section := OnchainView(res.value)), NoCommand)
      else (v.(warning := Some(res.error)), NoCommand)
    case UnvaultTransaction(res) =>
      if res.Ok? then (v.(section := FreshDelegate(res.value)), NoCommand)
      else (v.(warning := Some(res.error)), NoCommand)
    case RevocationTransactionsLoaded(res) =>
      if res.Ok? then (v.(section := FreshAcknowledge(res.value)), NoCommand)
      else (v.(warning := Some(res.error)), NoCommand)
    case Delegate(op) =>
      if op == v.vault.outpoint then (v, GetUnvaultTx(v.vault.outpoint)) else (v, NoCommand)
    case Acknowledge(op) =>
      if op == v.vault.outpoint then (v, GetRevocationTxs(v.vault.outpoint)) else (v, NoCommand)
    case _ =>
      var (sec, cmd) := SectionNext(v.section, v.vault.outpoint, msg, decode);
      (v.(section := sec), cmd)
  }

  /** The section and the commands issued after a sequence of messages. */
  function SectionRun(sec: SectionView, outpoint: Outpoint, msgs: seq<VaultMessage>,
                      decode: string -> Option<Psbt>): (SectionView, seq<Command>)
    decreases |msgs|
  {
    if |msgs| == 0 then (sec, [])
    else
      var (next, cmd) := SectionNext(sec, outpoint, msgs[0], decode);
      var (last, cmds) := SectionRun(next, outpoint, msgs[1..], decode);
      (last, [cmd] + cmds)
  }

  function VaultRun(v: VaultView, msgs: seq<VaultMessage>, decode: string -> Option<Psbt>): VaultView
    decreases |msgs|
  {
    if |msgs| == 0 then v else VaultRun(VaultNext(v, msgs[0], decode).0, msgs[1..], decode)
  }

  lemma FreshSectionsAreValid(unvaultTx: Psbt, txs: RevocationTransactions)
    ensures SectionInvariant(FreshDelegate(unvaultTx))
    ensures SectionInvariant(FreshAcknowledge(txs))
    ensures FreshDelegate(unvaultTx).signer == NewSign(unvaultTx, Unvault)
    ensures var a := FreshAcknowledge(txs);
            && !a.emergencyTx.1 && !a.emergencyUnvaultTx.1 && !a.cancelTx.1
            && a.signer == NewSign(txs.emergencyTx, Emergency)
            && ChainTxids(a) == (txs.emergencyTx.unsignedTxid, txs.emergencyUnvaultTx.unsignedTxid,
                                 txs.cancelTx.unsignedTxid)
  {
  }

  /** A section update keeps the section's kind, its invariant, and the
      identities of the three revocation members. */
  lemma SectionNextKeepsInvariant(sec: SectionView, outpoint: Outpoint, msg: VaultMessage,
                                  decode: string -> Option<Psbt>)
    requires SectionInvariant(sec)
    ensures var next := SectionNext(sec, outpoint, msg, decode).0;
            && SectionInvariant(next)
            && (sec.UnloadedView? <==> next.UnloadedView?)
            && (sec.OnchainView? ==> next == sec)
            && (sec.DelegateView? <==> next.DelegateView?)
            && (sec.AcknowledgeView? <==> next.AcknowledgeView?)
            && (sec.AcknowledgeView? ==> ChainTxids(next) == ChainTxids(sec))
  {
    match msg
    case Signed(res) =>
      if sec.DelegateView? || sec.AcknowledgeView? {
        SignNextKeepsAdmissible(sec.signer, SignMessage.Success, decode);
      }
    case SignMsg(m) =>
      if sec.DelegateView? || sec.AcknowledgeView? {
        SignNextKeepsAdmissible(sec.signer, m, decode);
      }
    case _ =>
  }

  lemma SignNextKeepsAdmissible(s: SignView, msg: SignMessage, decode: string -> Option<Psbt>)
    requires Admissible(s)
    ensures Admissible(SignNext(s, msg, decode))
    ensures SignNext(s, msg, decode).originalPsbt == s.originalPsbt
    ensures SignNext(s, msg, decode).transactionKind == s.transactionKind
  {
  }

  /** The chain is submitted only once its last member is signed, all three
      flags are then set, and the call carries the three stored psbts, each
      for the member's own transaction. Before emergency-unvault is signed a
      cancel signature cannot even be collected. */
  lemma RevocationSubmittedOnlyWhenComplete(sec: SectionView, outpoint: Outpoint, msg: VaultMessage,
                                            decode: string -> Option<Psbt>)
    requires SectionInvariant(sec)
    requires SectionNext(sec, outpoint, msg, decode).1.SetRevocationTxs?
    ensures sec.AcknowledgeView? && sec.emergencyTx.1 && sec.emergencyUnvaultTx.1
    ensures var (next, cmd) := SectionNext(sec, outpoint, msg, decode);
            && next.AcknowledgeView?
            && next.emergencyTx.1 && next.emergencyUnvaultTx.1 && next.cancelTx.1
            && cmd == SetRevocationTxs(outpoint, next.emergencyTx.0, next.emergencyUnvaultTx.0, next.cancelTx.0)
            && cmd.emergencyTx.unsignedTxid == sec.emergencyTx.0.unsignedTxid
            && cmd.emergencyUnvaultTx.unsignedTxid == sec.emergencyUnvaultTx.0.unsignedTxid
            && cmd.cancelTx.unsignedTxid == sec.cancelTx.0.unsignedTxid
  {
    SignNextKeepsAdmissible(sec.signer, msg.sign, decode);
  }

  /** The unvault transaction is submitted exactly when the delegate signer
      holds a signed psbt, and what is submitted signs the unvault
      transaction the section was built for. */
  lemma UnvaultSubmittedWhenSigned(sec: SectionView, outpoint: Outpoint, m: SignMessage,
                                   decode: string -> Option<Psbt>)
    requires SectionInvariant(sec) && sec.DelegateView?
    ensures var (next, cmd) := SectionNext(sec, outpoint, SignMsg(m), decode);
            && next.DelegateView?
            && next.signer == SignNext(sec.signer, m, decode)
            && (cmd.SetUnvaultTx? <==> next.signer.signedPsbt.Some?)
            && (cmd.NoCommand? <==> next.signer.signedPsbt.None?)
            && (cmd.SetUnvaultTx? ==>
                  cmd == SetUnvaultTx(outpoint, next.signer.signedPsbt.value)
                  && cmd.unvaultTx.unsignedTxid == sec.signer.originalPsbt.unsignedTxid)
  {
    SignNextKeepsAdmissible(sec.signer, m, decode);
  }

  /** Each signed revocation member hands over to a fresh signer for the next. */
  lemma ChainAdvances(sec: SectionView, outpoint: Outpoint, m: SignMessage, decode: string -> Option<Psbt>)
    requires SectionInvariant(sec) && sec.AcknowledgeView?
    requires SignNext(sec.signer, m, decode).signedPsbt.Some?
    ensures var psbt := SignNext(sec.signer, m, decode).signedPsbt.value;
            var (next, cmd) := SectionNext(sec, outpoint, SignMsg(m), decode);
            && (sec.signer.transactionKind == Emergency ==>
                  next == sec.(emergencyTx := (psbt, true),
                               signer := NewSign(sec.emergencyUnvaultTx.0, EmergencyUnvault))
                  && cmd == NoCommand)
            && (sec.signer.transactionKind == EmergencyUnvault ==>
                  next == sec.(emergencyUnvaultTx := (psbt, true), signer := NewSign(sec.cancelTx.0, Cancel))
                  && cmd == NoCommand)
            && (sec.signer.transactionKind == Cancel ==>
                  next == sec.(cancelTx := (psbt, true), signer := SignNext(sec.signer, m, decode))
                  && cmd == SetRevocationTxs(outpoint, sec.emergencyTx.0, sec.emergencyUnvaultTx.0, psbt))
  {
  }

  /** A failed submission keeps every collected signature and sets the
      section's warning; a successful one marks the signer as shared. */
  lemma SignedResponse(sec: SectionView, outpoint: Outpoint, res: Result<()>, decode: string -> Option<Psbt>)
    requires sec.DelegateView? || sec.AcknowledgeView?
    ensures var (next, cmd) := SectionNext(sec, outpoint, Signed(res), decode);
            && cmd == NoCommand
            && (res.Err? ==> next == sec.(warning := Some(res.error)))
            && (res.Ok? ==> next == sec.(signer := sec.signer.(sharingStatus := SharingStatus.Success)))
  {
  }

  /** Sign messages to a section without a signer change nothing. */
  lemma SignWithoutSignerIsNoop(sec: SectionView, outpoint: Outpoint, msg: VaultMessage,
                                decode: string -> Option<Psbt>)
    requires sec.UnloadedView? || sec.OnchainView?
    ensures SectionNext(sec, outpoint, msg, decode) == (sec, NoCommand)
  {
  }

  /** Along any sequence of messages from a freshly loaded revocation chain,
      every submission issued carries psbts for exactly the three
      transactions the daemon handed out, all three signed. */
  lemma {:induction false} RevocationRunSubmitsOnlyTargets(
      sec: SectionView, txids: (Txid, Txid, Txid), outpoint: Outpoint,
      msgs: seq<VaultMessage>, decode: string -> Option<Psbt>)
    requires SectionInvariant(sec) && sec.AcknowledgeView? && ChainTxids(sec) == txids
    ensures var (last, cmds) := SectionRun(sec, outpoint, msgs, decode);
            && |cmds| == |msgs|
            && last.AcknowledgeView? && SectionInvariant(last) && ChainTxids(last) == txids
            && forall k :: 0 <= k < |cmds| && cmds[k].SetRevocationTxs? ==>
                 && cmds[k].outpoint == outpoint
                 && cmds[k].emergencyTx.unsignedTxid == txids.0
                 && cmds[k].emergencyUnvaultTx.unsignedTxid == txids.1
                 && cmds[k].cancelTx.unsignedTxid == txids.2
    decreases |msgs|
  {
    if |msgs| > 0 {
      var (next, cmd) := SectionNext(sec, outpoint, msgs[0], decode);
      SectionNextKeepsInvariant(sec, outpoint, msgs[0], decode);
      if cmd.SetRevocationTxs? {
        RevocationSubmittedOnlyWhenComplete(sec, outpoint, msgs[0], decode);
      }
      RevocationRunSubmitsOnlyTargets(next, txids, outpoint, msgs[1..], decode);
    }
  }

  /** A request for another vault's transactions is ignored. */
  lemma ForeignRequestIgnored(v: VaultView, op: Outpoint, decode: string -> Option<Psbt>)
    requires op != v.vault.outpoint
    ensures VaultNext(v, Delegate(op), decode) == (v, NoCommand)
    ensures VaultNext(v, Acknowledge(op), decode) == (v, NoCommand)
  {
  }

  /** Daemon answers install the matching section; failures only set the
      warning and keep the section. */
  lemma ResponsesInstallSections(v: VaultView, msg: VaultMessage, decode: string -> Option<Psbt>)
    requires msg.OnChainTransactions? || msg.UnvaultTransaction? || msg.RevocationTransactionsLoaded?
    ensures var (next, cmd) := VaultNext(v, msg, decode);
            && cmd == NoCommand && next.vault == v.vault
            && (msg.OnChainTransactions? && msg.txs.Ok? ==> next == v.(section := OnchainView(msg.txs.value)))
            && (msg.UnvaultTransaction? && msg.unvault.Ok? ==>
                  next == v.(section := FreshDelegate(msg.unvault.value)))
            && (msg.RevocationTransactionsLoaded? && msg.revocation.Ok? ==>
                  next == v.(section := FreshAcknowledge(msg.revocation.value)))
            && (msg.OnChainTransactions? && msg.txs.Err? ==> next == v.(warning := Some(msg.txs.error)))
            && (msg.UnvaultTransaction? && msg.unvault.Err? ==> next == v.(warning := Some(msg.unvault.error)))
            && (msg.RevocationTransactionsLoaded? && msg.revocation.Err? ==>
                  next == v.(warning := Some(msg.revocation.error)))
  {
  }

  /** Every update keeps the vault record and the section invariant. */
  lemma VaultNextKeepsInvariant(v: VaultView, msg: VaultMessage, decode: string -> Option<Psbt>)
    requires SectionInvariant(v.section)
    ensures VaultNext(v, msg, decode).0.vault == v.vault
    ensures SectionInvariant(VaultNext(v, msg, decode).0.section)
  {
    FreshSectionsAreValid(Psbt("", []), RevocationTransactions(Psbt("", []), Psbt("", []), Psbt("", [])));
    match msg
    case UnvaultTransaction(res) =>
      if res.Ok? { FreshSectionsAreValid(res.value, RevocationTransactions(res.value, res.value, res.value)); }
    case RevocationTransactionsLoaded(res) =>
      if res.Ok? { FreshSectionsAreValid(res.value.emergencyTx, res.value); }
    case OnChainTransactions(_) =>
    case ListOnchainTransaction =>
    case Delegate(_) =>
    case Acknowledge(_) =>
    case _ => SectionNextKeepsInvariant(v.section, v.vault.outpoint, msg, decode);
  }

  /** Whatever messages a selected vault receives, it keeps the invariant. */
  lemma {:induction false} VaultRunKeepsInvariant(v: VaultView, msgs: seq<VaultMessage>, decode: string -> Option<Psbt>)
    requires SectionInvariant(v.section)
    ensures VaultRun(v, msgs, decode).vault == v.vault
    ensures SectionInvariant(VaultRun(v, msgs, decode).section)
    decreases |msgs|
  {
    if |msgs| > 0 {
      VaultNextKeepsInvariant(v, msgs[0], decode);
      VaultRunKeepsInvariant(VaultNext(v, msgs[0], decode).0, msgs[1..], decode);
    }
  }

  /** The section of a selected vault; the signing sections own a signer. */
  datatype VaultSection =
    | Unloaded
    | OnchainTransactions(txs: VaultTransactions)
    | DelegateSection(signer: SignState, warning: Option<string>)
    | AcknowledgeSection(
        emergencyTx: (Psbt, bool),
        emergencyUnvaultTx: (Psbt, bool),
        cancelTx: (Psbt, bool),
        warning: Option<string>,
        signer: SignState)

  function SignerOf(s: VaultSection): set<object> {
    if s.DelegateSection? || s.AcknowledgeSection? then {s.signer} else {}
  }

  function SectionOf(s: VaultSection): SectionView
    reads SignerOf(s)
  {
    match s
    case Unloaded => UnloadedView
    case OnchainTransactions(txs) => OnchainView(txs)
    case DelegateSection(signer, w) => DelegateView(signer.View(), w)
    case AcknowledgeSection(e, eu, c, w, signer) => AcknowledgeView(e, eu, c, w, signer.View())
  }

  /** `VaultSection::new_delegate_section`. */
  method NewDelegateSection(unvaultTx: Psbt) returns (s: VaultSection)
    ensures s.DelegateSection? && fresh(s.signer)
    ensures SectionOf(s) == FreshDelegate(unvaultTx)
  {
    var signer := new SignState(unvaultTx, Unvault);
    s := DelegateSection(signer, None);
  }

  /** `VaultSection::new_ack_section`. */
  method NewAckSection(txs: RevocationTransactions) returns (s: VaultSection)
    ensures s.AcknowledgeSection? && fresh(s.signer)
    ensures SectionOf(s) == FreshAcknowledge(txs)
  {
    var signer := new SignState(txs.emergencyTx, Emergency);
    s := AcknowledgeSection((txs.emergencyTx, false), (txs.emergencyUnvaultTx, false),
                            (txs.cancelTx, false), None, signer);
  }

  /** The selected-vault widget (`Vault` in the source). */
  class SelectedVault {
    const vault: Vault
    var warning: Option<string>
    var section: VaultSection
    ghost var Repr: set<object>

    ghost predicate Valid()
      reads this, Repr
    {
      && Repr == {this} + SignerOf(section)
      && SectionInvariant(SectionOf(section))
    }

    function View(): VaultView
      reads this, Repr
      requires Valid()
    {
      VaultView(vault, warning, SectionOf(section))
    }

    constructor (vault: Vault)
      ensures Valid() && fresh(Repr)
      ensures View() == FreshVault(vault)
    {
      this.vault := vault;
      section := Unloaded;
      warning := None;
      Repr := {this};
    }

    /** The command that loads the vault's on-chain transactions. */
    method Load() returns (cmd: Command)
      ensures cmd == GetOnchainTxs(vault.outpoint)
    {
      cmd := GetOnchainTxs(vault.outpoint);
    }

    method Update(msg: VaultMessage, decode: string -> Option<Psbt>) returns (cmd: Command)
      requires Valid()
      modifies Repr
      ensures Valid() && fresh(Repr - old(Repr))
      ensures (View(), cmd) == VaultNext(old(View()), msg, decode)
    {
      cmd := NoCommand;
      match msg
      case ListOnchainTransaction =>
        cmd := GetOnchainTxs(vault.outpoint);
      case OnChainTransactions(res) =>
        if res.Ok? {
          section := OnchainTransactions(res.value);
          Repr := {this};
        } else {
          warning := Some(res.error);
        }
      case UnvaultTransaction(res) =>
        if res.Ok? {
          section := NewDelegateSection(res.value);
          Repr := {this} + SignerOf(section);
          FreshSectionsAreValid(res.value, RevocationTransactions(res.value, res.value, res.value));
        } else {
          warning := Some(res.error);
        }
      case RevocationTransactionsLoaded(res) =>
        if res.Ok? {
          section := NewAckSection(res.value);
          Repr := {this} + SignerOf(section);
          FreshSectionsAreValid(res.value.emergencyTx, res.value);
        } else {
          warning := Some(res.error);
        }
      case Delegate(op) =>
        if op == vault.outpoint {
          cmd := GetUnvaultTx(vault.outpoint);
        }
      case Acknowledge(op) =>
        if op == vault.outpoint {
          cmd := GetRevocationTxs(vault.outpoint);
        }
      case Select(_) =>
        cmd := UpdateSection(msg, decode);
      case Signed(_) =>
        cmd := UpdateSection(msg, decode);
      case SignMsg(_) =>
        cmd := UpdateSection(msg, decode);
    }

    /** `VaultSection::update`: submission results and signing messages. */
    method UpdateSection(msg: VaultMessage, decode: string -> Option<Psbt>) returns (cmd: Command)
      requires Valid()
      modifies Repr
      ensures Valid() && fresh(Repr - old(Repr))
      ensures warning == old(warning)
      ensures (SectionOf(section), cmd) == SectionNext(old(SectionOf(section)), vault.outpoint, msg, decode)
    {
      ghost var before := SectionOf(section);
      SectionNextKeepsInvariant(before, vault.outpoint, msg, decode);
      cmd := NoCommand;
      match msg
      case Signed(res) =>
        match section {
        case DelegateSection(signer, _) =>
          if res.Ok? {
            signer.Update(SignMessage.Success, decode);
          } else {
            section := DelegateSection(signer, Some(res.error));
          }
        case AcknowledgeSection(e, eu, c, _, signer) =>
          if res.Ok? {
            signer.Update(SignMessage.Success, decode);
          } else {
            section := AcknowledgeSection(e, eu, c, Some(res.error), signer);
          }
        case _ =>
        }
      case SignMsg(m) =>
        match section {
        case DelegateSection(signer, _) =>
          signer.Update(m, decode);
          if signer.signedPsbt.Some? {
            cmd := SetUnvaultTx(vault.outpoint, signer.signedPsbt.value);
          }
        case AcknowledgeSection(e, eu, c, w, signer) =>
          signer.Update(m, decode);
          if signer.signedPsbt.Some? {
            var psbt := signer.signedPsbt.value;
            match signer.transactionKind
            case Emergency =>
              var next := new SignState(eu.0, EmergencyUnvault);
              section := AcknowledgeSection((psbt, true), eu, c, w, next);
              Repr := {this, next};
            case EmergencyUnvault =>
              var next := new SignState(c.0, Cancel);
              section := AcknowledgeSection(e, (psbt, true), c, w, next);
              Repr := {this, next};
            case Cancel =>
              section := AcknowledgeSection(e, eu, (psbt, true), w, signer);
              cmd := SetRevocationTxs(vault.outpoint, e.0, eu.0, psbt);
            case Unvault =>
            case Spend =>
          }
        case _ =>
        }
      case _ =>
    }
  }
}
