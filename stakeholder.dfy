/** The stakeholder's screens: home (vaults moving on chain and a per-status
    balance), acknowledge funds (deposits whose revocation transactions are
    to be signed), and delegate funds (vaults whose unvault transaction is to
    be signed, shown through a status filter). */
module Stakeholder {
  import opened Model
  import opened VaultWidget
  import opened Selection
  import opened Balances

  // ---------------------------------------------------------------- home

  datatype HomeView = HomeView(
    warning: Option<string>,
    balance: map<VaultStatus, (nat, nat)>,
    movingVaults: seq<Vault>,
    selected: Option<VaultView>)

  function NewHome(): HomeView {
    HomeView(None, map[], [], None)
  }

  function HomeLoad(): Command {
    Batch([GetBlockHeight, ListVaults(None)])
  }

  /** `StakeholderHomeState::update_vaults` on values. */
  function HomeUpdateVaults(s: HomeView, vs: seq<Vault>): HomeView {
    s.(balance := StatusBalance(vs), movingVaults := KeepWhere(vs, MovingStatuses))
  }

  /** `StakeholderHomeState::on_vault_select` on values. */
  function HomeSelect(s: HomeView, outpoint: Outpoint): (HomeView, Command) {
    match ToggleOn(SelectedOutpoint(s.selected), s.movingVaults, outpoint)
    case Deselect => (s.(selected := None), NoCommand)
    case SelectListed(v) => (s.(selected := Some(FreshVault(v))), GetOnchainTxs(v.outpoint))
    case Ignore => (s, NoCommand)
  }

  function HomeNext(s: HomeView, msg: Message, decode: string -> Option<Psbt>): (HomeView, Command) {
    match msg
    case Vaults(res) =>
      if res.Ok? then (HomeUpdateVaults(s, res.value), NoCommand) else (s.(warning := Some(res.error)), NoCommand)
    case VaultMsg(m) =>
      if m.Select? then HomeSelect(s, m.outpoint)
      else
        var (sel, cmd) := ForwardNext(s.selected, m, decode);
        (s.(selected := sel), cmd)
    case _ => (s, NoCommand)
  }

  /** A snapshot lists exactly the moving vaults, in order, and balances every
      counted status present by (count, amount); the selection is kept. */
  lemma HomeSnapshot(s: HomeView, vs: seq<Vault>, decode: string -> Option<Psbt>)
    ensures var (next, cmd) := HomeNext(s, Vaults(Ok(vs)), decode);
            && cmd == NoCommand && next.selected == s.selected && next.warning == s.warning
            && (forall v :: v in next.movingVaults <==> v in vs && v.status in MovingStatuses)
            && (forall st :: st in next.balance <==> st !in UncountedStatuses && CountWhere(vs, {st}) > 0)
            && (forall st :: st in next.balance ==> next.balance[st] == (CountWhere(vs, {st}), SumWhere(vs, {st})))
  {
    KeepWhereMembers(vs, MovingStatuses);
    StatusBalanceCounts(vs);
  }

  // ---------------------------------------------------------------- acknowledge funds

  datatype AckView = AckView(
    warning: Option<string>,
    balance: nat,
    deposits: seq<Vault>,
    selected: Option<VaultView>)

  function NewAck(): AckView {
    AckView(None, 0, [], None)
  }

  /** `StakeholderACKFundsState::load`: the deposits still to acknowledge. */
  function AckLoad(): Command {
    Batch([ListVaults(Some([Securing, Funded]))])
  }

  function AckUpdateDeposits(s: AckView, vs: seq<Vault>): AckView {
    s.(balance := SumWhere(vs, {Funded}), deposits := vs)
  }

  /** Deselecting reloads the deposits; selecting a deposit asks for its
      revocation transactions straight away. */
  function AckSelect(s: AckView, outpoint: Outpoint): (AckView, Command) {
    match ToggleOn(SelectedOutpoint(s.selected), s.deposits, outpoint)
    case Deselect => (s.(selected := None), AckLoad())
    case SelectListed(v) => (s.(selected := Some(FreshVault(v))), GetRevocationTxs(v.outpoint))
    case Ignore => (s, NoCommand)
  }

  function AckNext(s: AckView, msg: Message, decode: string -> Option<Psbt>): (AckView, Command) {
    match msg
    case VaultMsg(m) =>
      if m.Select? then AckSelect(s, m.outpoint)
      else
        var (sel, cmd) := ForwardNext(s.selected, m, decode);
        (s.(selected := sel), cmd)
    case Vaults(res) =>
      if res.Ok? then (AckUpdateDeposits(s, res.value), NoCommand) else (s.(warning := Some(res.error)), NoCommand)
    case _ => (s, NoCommand)
  }

  /** Selecting a listed deposit and receiving the daemon's revocation
      transactions opens the revocation chain for exactly that deposit,
      starting with the emergency transaction. */
  lemma AckSelectThenLoad(s: AckView, v: Vault, txs: RevocationTransactions, decode: string -> Option<Psbt>)
    requires v in s.deposits
    requires SelectedOutpoint(s.selected) != Some(v.outpoint)
    requires forall w :: w in s.deposits && w.outpoint == v.outpoint ==> w == v
    ensures var (s1, cmd1) := AckNext(s, VaultMsg(Select(v.outpoint)), decode);
            var (s2, cmd2) := AckNext(s1, VaultMsg(RevocationTransactionsLoaded(Ok(txs))), decode);
            && cmd1 == GetRevocationTxs(v.outpoint)
            && cmd2 == NoCommand
            && s2.selected == Some(VaultView(v, None, FreshAcknowledge(txs)))
            && s2.deposits == s.deposits
  {
  }

  /** Clicking the selected deposit again deselects it and reloads the list. */
  lemma AckReselectReloads(s: AckView, decode: string -> Option<Psbt>)
    requires s.selected.Some?
    ensures AckNext(s, VaultMsg(Select(s.selected.value.vault.outpoint)), decode)
            == (s.(selected := None), Batch([ListVaults(Some([Securing, Funded]))]))
  {
  }

  /** The balance counts only funded deposits. */
  lemma AckBalanceIsFunded(s: AckView, vs: seq<Vault>, decode: string -> Option<Psbt>)
    ensures var next := AckNext(s, Vaults(Ok(vs)), decode).0;
            && next.deposits == vs
            && next.balance == Total(KeepWhere(vs, {Funded}))
  {
    SumWhereIsTotalOfKept(vs, {Funded});
  }

  // ---------------------------------------------------------------- delegate funds

  datatype DelegateFundsView = DelegateFundsView(
    activeBalance: nat,
    statusFilter: seq<VaultStatus>,
    vaults: seq<Vault>,
    selected: Option<VaultView>,
    warning: Option<string>)

  /** `inactive` is the daemon model's list of inactive statuses, the
      screen's initial filter. */
  function NewDelegate(inactive: seq<VaultStatus>): DelegateFundsView {
    DelegateFundsView(0, inactive, [], None, None)
  }

  function DelegateLoad(): Command {
    ListVaults(Some([Funded, Securing, Secured, Activating, Active]))
  }

  function DelegateUpdateVaults(s: DelegateFundsView, vs: seq<Vault>): DelegateFundsView {
    s.(activeBalance := SumWhere(vs, ActiveStatuses), vaults := vs)
  }

  function DelegateSelect(s: DelegateFundsView, outpoint: Outpoint): (DelegateFundsView, Command) {
    match ToggleOn(SelectedOutpoint(s.selected), s.vaults, outpoint)
    case Deselect => (s.(selected := None), DelegateLoad())
    case SelectListed(v) => (s.(selected := Some(FreshVault(v))), GetOnchainTxs(v.outpoint))
    case Ignore => (s, NoCommand)
  }

  /** `on_vault_delegate` and `on_vault_acknowledge` on values: `request` is
      `Delegate(outpoint)` or `Acknowledge(outpoint)`. The selected vault
      gets it if it is the one; otherwise a listed vault is selected afresh
      and gets it. */
  function DelegateRequest(s: DelegateFundsView, request: VaultMessage, decode: string -> Option<Psbt>)
    : (DelegateFundsView, Command)
    requires request.Delegate? || request.Acknowledge?
  {
    if SelectedOutpoint(s.selected) == Some(request.outpoint) then
      var (v, cmd) := VaultNext(s.selected.value, request, decode);
      (s.(selected := Some(v)), cmd)
    else
      match FindVault(s.vaults, request.outpoint)
      case Some(listed) =>
        var (v, cmd) := VaultNext(FreshVault(listed), request, decode);
        (s.(selected := Some(v)), cmd)
      case None => (s, NoCommand)
  }

  function DelegateNext(s: DelegateFundsView, msg: Message, decode: string -> Option<Psbt>): (DelegateFundsView, Command) {
    match msg
    case Vaults(res) =>
      if res.Ok? then (DelegateUpdateVaults(s, res.value), NoCommand)
      else (s.(warning := Some(res.error)), NoCommand)
    case VaultMsg(m) => DelegateVaultMessage(s, m, decode)
    case FilterVaults(f) => (s.(statusFilter := f.statuses), NoCommand)
    case _ => (s, NoCommand)
  }

  /** The vault messages of the delegate screen: selection and requests are
      its own, the rest go to the selected vault. */
  function DelegateVaultMessage(s: DelegateFundsView, m: VaultMessage, decode: string -> Option<Psbt>)
    : (DelegateFundsView, Command)
  {
    match m
    case Select(op) => DelegateSelect(s, op)
    case Acknowledge(_) => DelegateRequest(s, m, decode)
    case Delegate(_) => DelegateRequest(s, m, decode)
    case _ =>
      var (sel, cmd) := ForwardNext(s.selected, m, decode);
      (s.(selected := sel), cmd)
  }

  /** The vaults the screen shows: those whose status the filter admits. */
  function Shown(s: DelegateFundsView): seq<Vault> {
    KeepWhere(s.vaults, StatusSet(s.statusFilter))
  }

  /** A delegation request for a listed vault selects that vault (afresh
      unless it is already the selected one) and asks for its unvault
      transaction; an unknown vault changes nothing. */
  lemma DelegateRequestBehaviour(s: DelegateFundsView, op: Outpoint, decode: string -> Option<Psbt>)
    ensures var (next, cmd) := DelegateNext(s, VaultMsg(Delegate(op)), decode);
            && next.vaults == s.vaults && next.statusFilter == s.statusFilter
            && (SelectedOutpoint(s.selected) == Some(op) ==>
                  next.selected == s.selected && cmd == GetUnvaultTx(op))
            && (SelectedOutpoint(s.selected) != Some(op) && (exists v :: v in s.vaults && v.outpoint == op) ==>
                  next.selected.Some? && next.selected.value.vault in s.vaults
                  && next.selected.value == FreshVault(next.selected.value.vault)
                  && next.selected.value.vault.outpoint == op
                  && cmd == GetUnvaultTx(op))
            && (SelectedOutpoint(s.selected) != Some(op) && (forall v :: v in s.vaults ==> v.outpoint != op) ==>
                  next == s && cmd == NoCommand)
  {
  }

  /** The acknowledgement request behaves the same way and asks for the
      revocation transactions. */
  lemma AcknowledgeRequestBehaviour(s: DelegateFundsView, op: Outpoint, decode: string -> Option<Psbt>)
    ensures var (next, cmd) := DelegateNext(s, VaultMsg(Acknowledge(op)), decode);
            && next.vaults == s.vaults && next.statusFilter == s.statusFilter
            && (SelectedOutpoint(s.selected) == Some(op) ==>
                  next.selected == s.selected && cmd == GetRevocationTxs(op))
            && (SelectedOutpoint(s.selected) != Some(op) && (exists v :: v in s.vaults && v.outpoint == op) ==>
                  next.selected.Some? && next.selected.value.vault in s.vaults
                  && next.selected.value == FreshVault(next.selected.value.vault)
                  && next.selected.value.vault.outpoint == op
                  && cmd == GetRevocationTxs(op))
            && (SelectedOutpoint(s.selected) != Some(op) && (forall v :: v in s.vaults ==> v.outpoint != op) ==>
                  next == s && cmd == NoCommand)
  {
  }

  /** A filter message replaces the filter and nothing else; the vaults
      shown are then exactly the listed ones with a status in the new
      filter, in list order. */
  lemma FilterReplacesFilter(s: DelegateFundsView, statuses: seq<VaultStatus>, decode: string -> Option<Psbt>)
    ensures var (next, cmd) := DelegateNext(s, FilterVaults(Status(statuses)), decode);
            && next == s.(statusFilter := statuses) && cmd == NoCommand
            && (forall v :: v in Shown(next) <==> v in s.vaults && v.status in statuses)
  {
    KeepWhereMembers(s.vaults, StatusSet(statuses));
  }

  /** The delegate balance is the active amount of the snapshot. */
  lemma DelegateBalanceIsActive(s: DelegateFundsView, vs: seq<Vault>, decode: string -> Option<Psbt>)
    ensures var next := DelegateNext(s, Vaults(Ok(vs)), decode).0;
            && next.vaults == vs && next.selected == s.selected && next.statusFilter == s.statusFilter
            && next.activeBalance == Total(KeepWhere(vs, ActiveStatuses))
  {
    SumWhereIsTotalOfKept(vs, ActiveStatuses);
  }

  /** Each screen keeps the selected vault's invariant. */
  lemma HomeKeepsInvariant(s: HomeView, msg: Message, decode: string -> Option<Psbt>)
    requires SelectionInvariant(s.selected)
    ensures SelectionInvariant(HomeNext(s, msg, decode).0.selected)
  {
    if msg.VaultMsg? {
      var found := if msg.vaultMsg.Select? then FindVault(s.movingVaults, msg.vaultMsg.outpoint) else None;
      SelectionKeepsInvariant(s.selected, if found.Some? then found.value else Vault("", Funded, 0), msg.vaultMsg, decode);
    }
  }

  lemma AckKeepsInvariant(s: AckView, msg: Message, decode: string -> Option<Psbt>)
    requires SelectionInvariant(s.selected)
    ensures SelectionInvariant(AckNext(s, msg, decode).0.selected)
  {
    if msg.VaultMsg? {
      var found := if msg.vaultMsg.Select? then FindVault(s.deposits, msg.vaultMsg.outpoint) else None;
      SelectionKeepsInvariant(s.selected, if found.Some? then found.value else Vault("", Funded, 0), msg.vaultMsg, decode);
    }
  }

  lemma DelegateKeepsInvariant(s: DelegateFundsView, msg: Message, decode: string -> Option<Psbt>)
    requires SelectionInvariant(s.selected)
    ensures SelectionInvariant(DelegateNext(s, msg, decode).0.selected)
  {
    if msg.VaultMsg? {
      var m := msg.vaultMsg;
      if m.Select? || m.Delegate? || m.Acknowledge? {
        var found := FindVault(s.vaults, m.outpoint);
        if found.Some? {
          SelectionKeepsInvariant(Some(FreshVault(found.value)), found.value, m, decode);
        }
      }
      SelectionKeepsInvariant(s.selected, Vault("", Funded, 0), m, decode);
    }
  }

  // ---------------------------------------------------------------- objects

  class StakeholderHomeState {
    var warning: Option<string>
    var balance: map<VaultStatus, (nat, nat)>
    var movingVaults: seq<Vault>
    var selected: Option<SelectedVault>
    ghost var Repr: set<object>

    ghost predicate Valid()
      reads this, Repr
    {
      && this in Repr
      && (selected.Some? ==> selected.value in Repr && selected.value.Repr <= Repr)
      && Owns(selected, this, Repr)
    }

    function View(): HomeView
      reads this, Repr
      requires Valid()
    {
      HomeView(warning, balance, movingVaults, ViewOf(selected))
    }

    constructor ()
      ensures Valid() && fresh(Repr)
      ensures View() == NewHome()
    {
      warning := None;
      balance := map[];
      movingVaults := [];
      selected := None;
      Repr := {this};
    }

    method Load() returns (cmd: Command)
      ensures cmd == HomeLoad()
    {
      cmd := Batch([GetBlockHeight, ListVaults(None)]);
    }

    method CalculateBalance(vs: seq<Vault>)
      requires Valid()
      modifies this
      ensures Valid() && Repr == old(Repr)
      ensures View() == old(View()).(balance := StatusBalance(vs))
    {
      var m: map<VaultStatus, (nat, nat)> := map[];
      for i := 0 to |vs|
        invariant m == StatusBalance(vs[..i])
      {
        assert vs[..i + 1][..i] == vs[..i];
        var v := vs[i];
        if !(v.status == Unconfirmed || v.status == Spent || v.status == Spending) {
          if v.status in m {
            m := m[v.status := (m[v.status].0 + 1, m[v.status].1 + v.amount)];
          } else {
            m := m[v.status := (1, v.amount)];
          }
        }
      }
      assert vs[..|vs|] == vs;
      balance := m;
    }

    method UpdateVaults(vs: seq<Vault>)
      requires Valid()
      modifies this
      ensures Valid() && Repr == old(Repr)
      ensures View() == HomeUpdateVaults(old(View()), vs)
    {
      CalculateBalance(vs);
      movingVaults := KeepWhere(vs, MovingStatuses);
    }

    method OnVaultSelect(outpoint: Outpoint) returns (cmd: Command)
      requires Valid()
      modifies this
      ensures Valid() && fresh(Repr - old(Repr))
      ensures (View(), cmd) == HomeSelect(old(View()), outpoint)
    {
      cmd := NoCommand;
      if selected.Some? && selected.value.vault.outpoint == outpoint {
        selected := None;
        Repr := {this};
        return;
      }
      var found := FindVault(movingVaults, outpoint);
      if found.Some? {
        var v := new SelectedVault(found.value);
        cmd := v.Load();
        selected := Some(v);
        Repr := {this} + v.Repr;
      }
    }

    method Update(msg: Message, decode: string -> Option<Psbt>) returns (cmd: Command)
      requires Valid()
      modifies Repr
      ensures Valid() && fresh(Repr - old(Repr))
      ensures (View(), cmd) == HomeNext(old(View()), msg, decode)
    {
      cmd := NoCommand;
      match msg
      case Vaults(res) =>
        if res.Ok? {
          UpdateVaults(res.value);
        } else {
          warning := Some(res.error);
        }
      case VaultMsg(m) =>
        if m.Select? {
          cmd := OnVaultSelect(m.outpoint);
        } else if selected.Some? {
          cmd := selected.value.Update(m, decode);
          Repr := {this} + selected.value.Repr;
        }
      case _ =>
    }
  }

  class StakeholderACKFundsState {
    var warning: Option<string>
    var balance: nat
    var deposits: seq<Vault>
    var selected: Option<SelectedVault>
    ghost var Repr: set<object>

    ghost predicate Valid()
      reads this, Repr
    {
      && this in Repr
      && (selected.Some? ==> selected.value in Repr && selected.value.Repr <= Repr)
      && Owns(selected, this, Repr)
    }

    function View(): AckView
      reads this, Repr
      requires Valid()
    {
      AckView(warning, balance, deposits, ViewOf(selected))
    }

    constructor ()
      ensures Valid() && fresh(Repr)
      ensures View() == NewAck()
    {
      warning := None;
      balance := 0;
      deposits := [];
      selected := None;
      Repr := {this};
    }

    method Load() returns (cmd: Command)
      ensures cmd == AckLoad()
    {
      cmd := Batch([ListVaults(Some([Securing, Funded]))]);
    }

    method CalculateBalance(vs: seq<Vault>)
      requires Valid()
      modifies this
      ensures Valid() && Repr == old(Repr)
      ensures View() == old(View()).(balance := SumWhere(vs, {Funded}))
    {
      var total: nat := 0;
      for i := 0 to |vs|
        invariant total == SumWhere(vs[..i], {Funded})
      {
        assert vs[..i + 1][..i] == vs[..i];
        if vs[i].status == Funded {
          total := total + vs[i].amount;
        }
      }
      assert vs[..|vs|] == vs;
      balance := total;
    }

    method UpdateDeposits(vs: seq<Vault>)
      requires Valid()
      modifies this
      ensures Valid() && Repr == old(Repr)
      ensures View() == AckUpdateDeposits(old(View()), vs)
    {
      CalculateBalance(vs);
      deposits := vs;
    }

    method OnVaultSelect(outpoint: Outpoint) returns (cmd: Command)
      requires Valid()
      modifies this
      ensures Valid() && fresh(Repr - old(Repr))
      ensures (View(), cmd) == AckSelect(old(View()), outpoint)
    {
      cmd := NoCommand;
      if selected.Some? && selected.value.vault.outpoint == outpoint {
        selected := None;
        Repr := {this};
        cmd := Load();
        return;
      }
      var found := FindVault(deposits, outpoint);
      if found.Some? {
        var v := new SelectedVault(found.value);
        selected := Some(v);
        Repr := {this} + v.Repr;
        cmd := GetRevocationTxs(found.value.outpoint);
      }
    }

    method Update(msg: Message, decode: string -> Option<Psbt>) returns (cmd: Command)
      requires Valid()
      modifies Repr
      ensures Valid() && fresh(Repr - old(Repr))
      ensures (View(), cmd) == AckNext(old(View()), msg, decode)
    {
      cmd := NoCommand;
      match msg
      case VaultMsg(m) =>
        if m.Select? {
          cmd := OnVaultSelect(m.outpoint);
        } else if selected.Some? {
          cmd := selected.value.Update(m, decode);
          Repr := {this} + selected.value.Repr;
        }
      case Vaults(res) =>
        if res.Ok? {
          UpdateDeposits(res.value);
        } else {
          warning := Some(res.error);
        }
      case _ =>
    }
  }

  class StakeholderDelegateFundsState {
    var activeBalance: nat
    var statusFilter: seq<VaultStatus>
    var vaults: seq<Vault>
    var selected: Option<SelectedVault>
    var warning: Option<string>
    ghost var Repr: set<object>

    ghost predicate Valid()
      reads this, Repr
    {
      && this in Repr
      && (selected.Some? ==> selected.value in Repr && selected.value.Repr <= Repr)
      && Owns(selected, this, Repr)
    }

    function View(): DelegateFundsView
      reads this, Repr
      requires Valid()
    {
      DelegateFundsView(activeBalance, statusFilter, vaults, ViewOf(selected), warning)
    }

    constructor (inactive: seq<VaultStatus>)
      ensures Valid() && fresh(Repr)
      ensures View() == NewDelegate(inactive)
    {
      activeBalance := 0;
      vaults := [];
      statusFilter := inactive;
      selected := None;
      warning := None;
      Repr := {this};
    }

    method Load() returns (cmd: Command)
      ensures cmd == DelegateLoad()
    {
      cmd := ListVaults(Some([Funded, Securing, Secured, Activating, Active]));
    }

    method CalculateBalance(vs: seq<Vault>)
      requires Valid()
      modifies this
      ensures Valid() && Repr == old(Repr)
      ensures View() == old(View()).(activeBalance := SumWhere(vs, ActiveStatuses))
    {
      activeBalance := 0;
      for i := 0 to |vs|
        invariant Valid() && Repr == old(Repr)
        invariant activeBalance == SumWhere(vs[..i], ActiveStatuses)
        invariant View() == old(View()).(activeBalance := activeBalance)
      {
        assert vs[..i + 1][..i] == vs[..i];
        match vs[i].status
        case Active => activeBalance := activeBalance + vs[i].amount;
        case Unvaulting => activeBalance := activeBalance + vs[i].amount;
        case Unvaulted => activeBalance := activeBalance + vs[i].amount;
        case _ =>
      }
      assert vs[..|vs|] == vs;
    }

    method UpdateVaults(vs: seq<Vault>)
      requires Valid()
      modifies this
      ensures Valid() && Repr == old(Repr)
      ensures View() == DelegateUpdateVaults(old(View()), vs)
    {
      CalculateBalance(vs);
      vaults := vs;
    }

    method OnVaultSelect(outpoint: Outpoint) returns (cmd: Command)
      requires Valid()
      modifies this
      ensures Valid() && fresh(Repr - old(Repr))
      ensures (View(), cmd) == DelegateSelect(old(View()), outpoint)
    {
      cmd := NoCommand;
      if selected.Some? && selected.value.vault.outpoint == outpoint {
        selected := None;
        Repr := {this};
        cmd := Load();
        return;
      }
      var found := FindVault(vaults, outpoint);
      if found.Some? {
        var v := new SelectedVault(found.value);
        cmd := v.Load();
        selected := Some(v);
        Repr := {this} + v.Repr;
      }
    }

    /** `on_vault_delegate` when `request` is `Delegate(outpoint)`,
        `on_vault_acknowledge` when it is `Acknowledge(outpoint)`. */
    method OnVaultRequest(request: VaultMessage, decode: string -> Option<Psbt>) returns (cmd: Command)
      requires Valid()
      requires request.Delegate? || request.Acknowledge?
      modifies Repr
      ensures Valid() && fresh(Repr - old(Repr))
      ensures (View(), cmd) == DelegateRequest(old(View()), request, decode)
    {
      if selected.Some? && selected.value.vault.outpoint == request.outpoint {
        cmd := ForwardToSelected(request, decode);
      } else {
        cmd := SelectAndRequest(request, decode);
      }
    }

    /** The request for a vault other than the selected one: a listed vault
        is selected afresh and gets it. */
    method SelectAndRequest(request: VaultMessage, decode: string -> Option<Psbt>) returns (cmd: Command)
      requires Valid()
      requires request.Delegate? || request.Acknowledge?
      requires SelectedOutpoint(View().selected) != Some(request.outpoint)
      modifies this
      ensures Valid() && fresh(Repr - old(Repr))
      ensures (View(), cmd) == DelegateRequest(old(View()), request, decode)
    {
      cmd := NoCommand;
      var found := FindVault(vaults, request.outpoint);
      if found.Some? {
        var v := new SelectedVault(found.value);
        cmd := v.Update(request, decode);
        selected := Some(v);
        Repr := {this} + v.Repr;
      }
    }

    method OnVaultMessage(m: VaultMessage, decode: string -> Option<Psbt>) returns (cmd: Command)
      requires Valid()
      modifies Repr
      ensures Valid() && fresh(Repr - old(Repr))
      ensures (View(), cmd) == DelegateVaultMessage(old(View()), m, decode)
    {
      if m.Select? {
        cmd := OnVaultSelect(m.outpoint);
      } else if m.Acknowledge? || m.Delegate? {
        cmd := OnVaultRequest(m, decode);
      } else {
        cmd := ForwardToSelected(m, decode);
      }
    }

    /** Any other vault message goes to the selected vault, if any. */
    method ForwardToSelected(m: VaultMessage, decode: string -> Option<Psbt>) returns (cmd: Command)
      requires Valid()
      modifies Repr
      ensures Valid() && fresh(Repr - old(Repr))
      ensures var (sel, c) := ForwardNext(old(View()).selected, m, decode);
              View() == old(View()).(selected := sel) && cmd == c
    {
      cmd := NoCommand;
      if selected.Some? {
        cmd := selected.value.Update(m, decode);
        Repr := {this} + selected.value.Repr;
      }
    }

    method Update(msg: Message, decode: string -> Option<Psbt>) returns (cmd: Command)
      requires Valid()
      modifies Repr
      ensures Valid() && fresh(Repr - old(Repr))
      ensures (View(), cmd) == DelegateNext(old(View()), msg, decode)
    {
      cmd := NoCommand;
      match msg
      case Vaults(res) =>
        if res.Ok? {
          UpdateVaults(res.value);
        } else {
          warning := Some(res.error);
        }
      case VaultMsg(m) =>
        cmd := OnVaultMessage(m, decode);
      case FilterVaults(f) =>
        statusFilter := f.statuses;
      case _ =>
    }
  }
}
