/** The installer's manager steps: the stakeholders' xpubs, the managers'
    xpubs with the spending policy, and the cosigning servers. Each step is
    edited message by message; `check` flags the xpubs that do not parse and
    `is_correct` decides whether the installer may go on. The xpub parser is
    a parameter, `isXpub`. */
module Installer {
  import opened Model

  // ---------------------------------------------------------------------
  // Entries

  /** A participant's xpub field. Its own update (the installer's common
      step code) is not part of this model and is the parameter `xpubEdit`. */
  datatype ParticipantXpub = ParticipantXpub(xpub: string, warning: bool)

  function NewXpub(): ParticipantXpub {
    ParticipantXpub("", false)
  }

  /** A cosigner's key field, with its own update `keyEdit`. */
  datatype CosignerKey = CosignerKey(key: string, warning: bool)

  function NewCosignerKey(): CosignerKey {
    CosignerKey("", false)
  }

  /** A cosigning server: its host and noise key, each with a warning. */
  datatype Cosigner = Cosigner(host: string, noiseKey: string, warningHost: bool, warningNoiseKey: bool)

  function NewCosigner(): Cosigner {
    Cosigner("", "", false, false)
  }

  datatype ParticipantXpubMessage = XpubDelete | XpubEdited(xpub: string)
  datatype CosignerKeyMessage = KeyDelete | KeyEdited(key: string)
  datatype DefineCosignerMessage = HostEdited(host: string) | NoiseKeyEdited(noiseKey: string)
  datatype Action = Increment | Decrement

  datatype StakeholderXpubsMessage =
    | StakeholderXpub(index: nat, xpubMsg: ParticipantXpubMessage)
    | AddStakeholderXpub

  datatype ManagerXpubsMessage =
    | OurXpubEdited(ourXpub: string)
    | ManagerXpub(index: nat, xpubMsg: ParticipantXpubMessage)
    | AddManagerXpub
    | CosignerKeyMsg(index: nat, keyMsg: CosignerKeyMessage)
    | AddCosigner
    | ManagersTreshold(treshold: Action)
    | SpendingDelay(delay: Action)

  /** The installer's messages; each step reacts to its own kind only. */
  datatype InstallerMessage =
    | StakeholderXpubsMsg(stakeholderMsg: StakeholderXpubsMessage)
    | ManagerXpubsMsg(managerMsg: ManagerXpubsMessage)
    | CosignersMsg(index: nat, cosignerMsg: DefineCosignerMessage)
    | OtherStep

  // ---------------------------------------------------------------------
  // Checks

  /** `iter().any(|xpub| xpub.warning)`. */
  function AnyWarned(xs: seq<ParticipantXpub>): bool
    decreases |xs|
  {
    |xs| > 0 && (xs[0].warning || AnyWarned(xs[1..]))
  }

  lemma {:induction false} AnyWarnedIff(xs: seq<ParticipantXpub>)
    ensures AnyWarned(xs) <==> exists i :: 0 <= i < |xs| && xs[i].warning
    decreases |xs|
  {
    if |xs| > 0 {
      AnyWarnedIff(xs[1..]);
      if exists i :: 0 <= i < |xs| && xs[i].warning {
        var i :| 0 <= i < |xs| && xs[i].warning;
        if i > 0 {
          assert xs[1..][i - 1] == xs[i];
        }
      }
      if exists i :: 0 <= i < |xs[1..]| && xs[1..][i].warning {
        var i :| 0 <= i < |xs[1..]| && xs[1..][i].warning;
        assert xs[i + 1] == xs[1..][i];
      }
    }
  }

  /** The cosigners' `any(|wt| wt.warning_host || wt.warning_noise_key)`. */
  function AnyCosignerWarned(cs: seq<Cosigner>): bool
    decreases |cs|
  {
    |cs| > 0 && (cs[0].warningHost || cs[0].warningNoiseKey || AnyCosignerWarned(cs[1..]))
  }

  lemma {:induction false} AnyCosignerWarnedIff(cs: seq<Cosigner>)
    ensures AnyCosignerWarned(cs) <==> exists i :: 0 <= i < |cs| && (cs[i].warningHost || cs[i].warningNoiseKey)
    decreases |cs|
  {
    if |cs| > 0 {
      AnyCosignerWarnedIff(cs[1..]);
      if exists i :: 0 <= i < |cs| && (cs[i].warningHost || cs[i].warningNoiseKey) {
        var i :| 0 <= i < |cs| && (cs[i].warningHost || cs[i].warningNoiseKey);
        if i > 0 {
          assert cs[1..][i - 1] == cs[i];
        }
      }
      if exists i :: 0 <= i < |cs[1..]| && (cs[1..][i].warningHost || cs[1..][i].warningNoiseKey) {
        var i :| 0 <= i < |cs[1..]| && (cs[1..][i].warningHost || cs[1..][i].warningNoiseKey);
        assert cs[i + 1] == cs[1..][i];
      }
    }
  }

  /** One iteration of a check loop: an xpub that does not parse gets its
      warning; nothing is ever cleared. */
  function CheckOne(p: ParticipantXpub, isXpub: string -> bool): ParticipantXpub {
    if !isXpub(p.xpub) then ParticipantXpub(p.xpub, true) else p
  }

  /** The list a check loop leaves. */
  function CheckXpubs(xs: seq<ParticipantXpub>, isXpub: string -> bool): seq<ParticipantXpub>
    decreases |xs|
  {
    if |xs| == 0 then [] else CheckXpubs(xs[..|xs| - 1], isXpub) + [CheckOne(xs[|xs| - 1], isXpub)]
  }

  lemma {:induction false} CheckXpubsAt(xs: seq<ParticipantXpub>, isXpub: string -> bool)
    ensures |CheckXpubs(xs, isXpub)| == |xs|
    ensures forall i :: 0 <= i < |xs| ==> CheckXpubs(xs, isXpub)[i] == CheckOne(xs[i], isXpub)
    decreases |xs|
  {
    if |xs| > 0 {
      CheckXpubsAt(xs[..|xs| - 1], isXpub);
    }
  }

  /** A check keeps every xpub, never clears a warning, and raises one
      exactly on the entries that do not parse. */
  lemma CheckOnlyRaisesWarnings(xs: seq<ParticipantXpub>, isXpub: string -> bool)
    ensures var r := CheckXpubs(xs, isXpub);
            && |r| == |xs|
            && forall i :: 0 <= i < |xs| ==>
                 && r[i].xpub == xs[i].xpub
                 && (r[i].warning <==> xs[i].warning || !isXpub(xs[i].xpub))
  {
    CheckXpubsAt(xs, isXpub);
  }

  /** After a check the step is correct exactly when no entry was flagged
      before and every entry parses. */
  lemma CheckedCorrectIff(xs: seq<ParticipantXpub>, isXpub: string -> bool)
    ensures !AnyWarned(CheckXpubs(xs, isXpub)) <==>
              !AnyWarned(xs) && forall i :: 0 <= i < |xs| ==> isXpub(xs[i].xpub)
  {
    var r := CheckXpubs(xs, isXpub);
    CheckOnlyRaisesWarnings(xs, isXpub);
    AnyWarnedIff(xs);
    AnyWarnedIff(r);
    if !AnyWarned(r) {
      forall i | 0 <= i < |xs| ensures isXpub(xs[i].xpub) && !xs[i].warning {
        assert !r[i].warning;
      }
    }
  }

  // ---------------------------------------------------------------------
  // List edits and counters, on values

  /** Deleting removes the entry (the index must exist), an edit changes the
      indexed entry if there is one. */
  function XpubListNext(xs: seq<ParticipantXpub>, i: nat, m: ParticipantXpubMessage,
                        xpubEdit: (ParticipantXpub, string) -> ParticipantXpub): seq<ParticipantXpub>
    requires m.XpubDelete? ==> i < |xs|
  {
    match m
    case XpubDelete => Remove(xs, i)
    case XpubEdited(x) => if i < |xs| then xs[i := xpubEdit(xs[i], x)] else xs
  }

  function KeyListNext(ks: seq<CosignerKey>, i: nat, m: CosignerKeyMessage,
                       keyEdit: (CosignerKey, string) -> CosignerKey): seq<CosignerKey>
    requires m.KeyDelete? ==> i < |ks|
  {
    match m
    case KeyDelete => Remove(ks, i)
    case KeyEdited(k) => if i < |ks| then ks[i := keyEdit(ks[i], k)] else ks
  }

  /** An edit of an entry that does not exist changes nothing; an edit of
      one that does replaces it alone; a deletion shifts the later entries
      down by one. */
  lemma XpubListEdits(xs: seq<ParticipantXpub>, i: nat, x: string,
                      xpubEdit: (ParticipantXpub, string) -> ParticipantXpub)
    ensures i >= |xs| ==> XpubListNext(xs, i, XpubEdited(x), xpubEdit) == xs
    ensures i < |xs| ==>
              var r := XpubListNext(xs, i, XpubEdited(x), xpubEdit);
              |r| == |xs| && r[i] == xpubEdit(xs[i], x) && forall k :: 0 <= k < |xs| && k != i ==> r[k] == xs[k]
    ensures i < |xs| ==>
              var r := XpubListNext(xs, i, XpubDelete, xpubEdit);
              |r| == |xs| - 1 && r[..i] == xs[..i] && r[i..] == xs[i + 1..]
  {
  }

  /** `ManagersTreshold` and `SpendingDelay`: count up, or down to zero. */
  function Counter(n: nat, a: Action): (r: nat)
    ensures a.Increment? ==> r == n + 1
    ensures a.Decrement? ==> r + 1 == n || (n == 0 && r == 0)
  {
    match a
    case Increment => n + 1
    case Decrement => if n > 0 then n - 1 else n
  }

  /** Decrementing undoes an increment, and an increment undoes a
      decrement above zero; at zero a decrement does nothing. */
  lemma CounterRoundTrip(n: nat)
    ensures Counter(Counter(n, Increment), Decrement) == n
    ensures n > 0 ==> Counter(Counter(n, Decrement), Increment) == n
    ensures Counter(0, Decrement) == 0
  {
  }

  // ---------------------------------------------------------------------
  // The manager xpubs step, on values

  datatype ManagerXpubsView = ManagerXpubsView(
    cosigners: seq<CosignerKey>,
    otherXpubs: seq<ParticipantXpub>,
    ourXpub: string,
    ourXpubWarning: bool,
    managersTreshold: nat,
    spendingDelay: nat)

  function NewManagerXpubs(): ManagerXpubsView {
    ManagerXpubsView([], [], "", false, 0, 0)
  }

  /** Where the step's update does not panic: deletions index their list. */
  predicate ManagerXpubsNextDefined(s: ManagerXpubsView, msg: InstallerMessage) {
    msg.ManagerXpubsMsg? ==>
      match msg.managerMsg
      case ManagerXpub(i, m) => m.XpubDelete? ==> i < |s.otherXpubs|
      case CosignerKeyMsg(i, m) => m.KeyDelete? ==> i < |s.cosigners|
      case _ => true
  }

  function ManagerXpubsNext(s: ManagerXpubsView, msg: InstallerMessage,
                            xpubEdit: (ParticipantXpub, string) -> ParticipantXpub,
                            keyEdit: (CosignerKey, string) -> CosignerKey): ManagerXpubsView
    requires ManagerXpubsNextDefined(s, msg)
  {
    if !msg.ManagerXpubsMsg? then s
    else
      match msg.managerMsg
      case OurXpubEdited(x) => s.(ourXpub := x, ourXpubWarning := false)
      case ManagerXpub(i, m) => s.(otherXpubs := XpubListNext(s.otherXpubs, i, m, xpubEdit))
      case AddManagerXpub => s.(otherXpubs := s.otherXpubs + [NewXpub()])
      case CosignerKeyMsg(i, m) => s.(cosigners := KeyListNext(s.cosigners, i, m, keyEdit))
      case AddCosigner => s.(cosigners := s.cosigners + [NewCosignerKey()])
      case ManagersTreshold(a) => s.(managersTreshold := Counter(s.managersTreshold, a))
      case SpendingDelay(a) => s.(spendingDelay := Counter(s.spendingDelay, a))
  }

  /** The manager step's check: the other managers' xpubs as in the
      stakeholder step, then our own xpub. */
  function ManagerXpubsChecked(s: ManagerXpubsView, isXpub: string -> bool): ManagerXpubsView {
    s.(otherXpubs := CheckXpubs(s.otherXpubs, isXpub),
       ourXpubWarning := s.ourXpubWarning || !isXpub(s.ourXpub))
  }

  predicate ManagerXpubsCorrect(s: ManagerXpubsView) {
    !s.ourXpubWarning && !AnyWarned(s.otherXpubs)
  }

  /** Editing our xpub clears its warning; adding appends one fresh entry;
      every message touches only its own field. */
  lemma ManagerXpubsEdits(s: ManagerXpubsView, x: string,
                          xpubEdit: (ParticipantXpub, string) -> ParticipantXpub,
                          keyEdit: (CosignerKey, string) -> CosignerKey)
    ensures ManagerXpubsNext(s, ManagerXpubsMsg(OurXpubEdited(x)), xpubEdit, keyEdit) ==
              s.(ourXpub := x, ourXpubWarning := false)
    ensures ManagerXpubsNext(s, ManagerXpubsMsg(AddManagerXpub), xpubEdit, keyEdit).otherXpubs ==
              s.otherXpubs + [NewXpub()]
    ensures ManagerXpubsNext(s, ManagerXpubsMsg(AddCosigner), xpubEdit, keyEdit).cosigners ==
              s.cosigners + [NewCosignerKey()]
    ensures ManagerXpubsNext(s, OtherStep, xpubEdit, keyEdit) == s
  {
  }

  /** After a check the manager step is correct exactly when no warning was
      raised before and our xpub and every other xpub parse. */
  lemma ManagerCheckedCorrectIff(s: ManagerXpubsView, isXpub: string -> bool)
    ensures ManagerXpubsCorrect(ManagerXpubsChecked(s, isXpub)) <==>
              && ManagerXpubsCorrect(s) && isXpub(s.ourXpub)
              && forall i :: 0 <= i < |s.otherXpubs| ==> isXpub(s.otherXpubs[i].xpub)
  {
    CheckedCorrectIff(s.otherXpubs, isXpub);
  }

  // ---------------------------------------------------------------------
  // The cosigners step, on values

  /** `Cosigner::update`: the edited field is stored and its warning
      cleared. */
  function CosignerNext(c: Cosigner, m: DefineCosignerMessage): (r: Cosigner)
    ensures m.HostEdited? ==> r.host == m.host && !r.warningHost && r.noiseKey == c.noiseKey && r.warningNoiseKey == c.warningNoiseKey
    ensures m.NoiseKeyEdited? ==> r.noiseKey == m.noiseKey && !r.warningNoiseKey && r.host == c.host && r.warningHost == c.warningHost
  {
    match m
    case HostEdited(h) => Cosigner(h, c.noiseKey, false, c.warningNoiseKey)
    case NoiseKeyEdited(k) => Cosigner(c.host, k, c.warningHost, false)
  }

  function CosignersNext(cs: seq<Cosigner>, msg: InstallerMessage): (r: seq<Cosigner>)
    ensures |r| == |cs|
    ensures msg.CosignersMsg? && msg.index < |cs| ==>
              r[msg.index] == CosignerNext(cs[msg.index], msg.cosignerMsg)
              && forall k :: 0 <= k < |cs| && k != msg.index ==> r[k] == cs[k]
    ensures !(msg.CosignersMsg? && msg.index < |cs|) ==> r == cs
  {
    if msg.CosignersMsg? && msg.index < |cs| then cs[msg.index := CosignerNext(cs[msg.index], msg.cosignerMsg)]
    else cs
  }

  /** The list `load_context` leaves: cut to `n` entries, or padded with
      fresh cosigners up to `n`. */
  function Resized(cs: seq<Cosigner>, n: nat): (r: seq<Cosigner>)
    ensures |r| == n
    ensures forall i :: 0 <= i < n && i < |cs| ==> r[i] == cs[i]
    ensures forall i :: |cs| <= i < n ==> r[i] == NewCosigner()
  {
    if |cs| >= n then cs[..n] else cs + seq(n - |cs|, _ => NewCosigner())
  }

  /** Resizing to the current length is the identity, and the list's own
      prefix survives any resizing. */
  lemma ResizedKeepsPrefix(cs: seq<Cosigner>, n: nat)
    ensures Resized(cs, |cs|) == cs
    ensures n <= |cs| ==> Resized(cs, n) == cs[..n]
    ensures |cs| <= n ==> Resized(cs, n)[..|cs|] == cs
  {
    assert cs[..|cs|] == cs;
  }

  // ---------------------------------------------------------------------
  // The objects

  /** What the installer's steps share: the number of cosigning servers the
      manager step declared. */
  class Context {
    var numberCosigners: nat

    constructor ()
      ensures numberCosigners == 0
    {
      numberCosigners := 0;
    }
  }

  class DefineStakeholderXpubs {
    var stakeholderXpubs: seq<ParticipantXpub>

    constructor ()
      ensures stakeholderXpubs == []
    {
      stakeholderXpubs := [];
    }

    /** `is_correct`: no stakeholder xpub is flagged. */
    function IsCorrect(): (r: bool)
      reads this
      ensures r <==> forall i :: 0 <= i < |stakeholderXpubs| ==> !stakeholderXpubs[i].warning
    {
      AnyWarnedIff(stakeholderXpubs);
      !AnyWarned(stakeholderXpubs)
    }

    method Check(isXpub: string -> bool)
      modifies this
      ensures stakeholderXpubs == CheckXpubs(old(stakeholderXpubs), isXpub)
    {
      for i := 0 to |stakeholderXpubs|
        invariant |stakeholderXpubs| == |old(stakeholderXpubs)|
        invariant forall k :: 0 <= k < i ==> stakeholderXpubs[k] == CheckOne(old(stakeholderXpubs)[k], isXpub)
        invariant forall k :: i <= k < |stakeholderXpubs| ==> stakeholderXpubs[k] == old(stakeholderXpubs)[k]
      {
        if !isXpub(stakeholderXpubs[i].xpub) {
          stakeholderXpubs := stakeholderXpubs[i := ParticipantXpub(stakeholderXpubs[i].xpub, true)];
        }
      }
      CheckXpubsAt(old(stakeholderXpubs), isXpub);
    }

    method Update(msg: InstallerMessage, xpubEdit: (ParticipantXpub, string) -> ParticipantXpub)
      requires msg.StakeholderXpubsMsg? && msg.stakeholderMsg.StakeholderXpub? && msg.stakeholderMsg.xpubMsg.XpubDelete? ==>
                 msg.stakeholderMsg.index < |stakeholderXpubs|
      modifies this
      ensures !msg.StakeholderXpubsMsg? ==> stakeholderXpubs == old(stakeholderXpubs)
      ensures msg.StakeholderXpubsMsg? && msg.stakeholderMsg.AddStakeholderXpub? ==>
                stakeholderXpubs == old(stakeholderXpubs) + [NewXpub()]
      ensures msg.StakeholderXpubsMsg? && msg.stakeholderMsg.StakeholderXpub? ==>
                stakeholderXpubs ==
                XpubListNext(old(stakeholderXpubs), msg.stakeholderMsg.index, msg.stakeholderMsg.xpubMsg, xpubEdit)
    {
      if msg.StakeholderXpubsMsg? {
        match msg.stakeholderMsg
        case StakeholderXpub(i, m) =>
          if m.XpubDelete? {
            stakeholderXpubs := stakeholderXpubs[..i] + stakeholderXpubs[i + 1..];
          } else if i < |stakeholderXpubs| {
            stakeholderXpubs := stakeholderXpubs[i := xpubEdit(stakeholderXpubs[i], m.xpub)];
          }
        case AddStakeholderXpub =>
          stakeholderXpubs := stakeholderXpubs + [NewXpub()];
      }
    }
  }

  class DefineManagerXpubs {
    var cosigners: seq<CosignerKey>
    var otherXpubs: seq<ParticipantXpub>
    var ourXpub: string
    var ourXpubWarning: bool
    var managersTreshold: nat
    var spendingDelay: nat

    function View(): ManagerXpubsView
      reads this
    {
      ManagerXpubsView(cosigners, otherXpubs, ourXpub, ourXpubWarning, managersTreshold, spendingDelay)
    }

    constructor ()
      ensures View() == NewManagerXpubs()
    {
      managersTreshold := 0;
      spendingDelay := 0;
      ourXpub := "";
      ourXpubWarning := false;
      otherXpubs := [];
      cosigners := [];
    }

    /** `update_context`: the next steps expect as many cosigning servers as
        cosigner keys were entered. */
    method UpdateContext(ctx: Context)
      modifies ctx
      ensures ctx.numberCosigners == |cosigners|
    {
      ctx.numberCosigners := |cosigners|;
    }

    /** `is_correct`: our xpub and every other manager xpub are unflagged. */
    function IsCorrect(): (r: bool)
      reads this
      ensures r <==> !ourXpubWarning && forall i :: 0 <= i < |otherXpubs| ==> !otherXpubs[i].warning
    {
      AnyWarnedIff(otherXpubs);
      ManagerXpubsCorrect(View())
    }

    method Check(isXpub: string -> bool)
      modifies this
      ensures View() == ManagerXpubsChecked(old(View()), isXpub)
    {
      for i := 0 to |otherXpubs|
        invariant |otherXpubs| == |old(otherXpubs)|
        invariant forall k :: 0 <= k < i ==> otherXpubs[k] == CheckOne(old(otherXpubs)[k], isXpub)
        invariant forall k :: i <= k < |otherXpubs| ==> otherXpubs[k] == old(otherXpubs)[k]
        invariant View() == old(View()).(otherXpubs := otherXpubs)
      {
        if !isXpub(otherXpubs[i].xpub) {
          otherXpubs := otherXpubs[i := ParticipantXpub(otherXpubs[i].xpub, true)];
        }
      }
      CheckXpubsAt(old(otherXpubs), isXpub);
      if !isXpub(ourXpub) {
        ourXpubWarning := true;
      }
    }

    method Update(msg: InstallerMessage, xpubEdit: (ParticipantXpub, string) -> ParticipantXpub,
                  keyEdit: (CosignerKey, string) -> CosignerKey)
      requires ManagerXpubsNextDefined(View(), msg)
      modifies this
      ensures View() == ManagerXpubsNext(old(View()), msg, xpubEdit, keyEdit)
    {
      if msg.ManagerXpubsMsg? {
        match msg.managerMsg
        case OurXpubEdited(x) =>
          ourXpub := x;
          ourXpubWarning := false;
        case ManagerXpub(i, m) =>
          if m.XpubDelete? {
            otherXpubs := otherXpubs[..i] + otherXpubs[i + 1..];
          } else if i < |otherXpubs| {
            otherXpubs := otherXpubs[i := xpubEdit(otherXpubs[i], m.xpub)];
          }
        case AddManagerXpub =>
          otherXpubs := otherXpubs + [NewXpub()];
        case CosignerKeyMsg(i, m) =>
          if m.KeyDelete? {
            cosigners := cosigners[..i] + cosigners[i + 1..];
          } else if i < |cosigners| {
            cosigners := cosigners[i := keyEdit(cosigners[i], m.key)];
          }
        case AddCosigner =>
          cosigners := cosigners + [NewCosignerKey()];
        case ManagersTreshold(a) =>
          match a {
            case Increment => managersTreshold := managersTreshold + 1;
            case Decrement =>
              if managersTreshold > 0 {
                managersTreshold := managersTreshold - 1;
              }
          }
        case SpendingDelay(a) =>
          match a {
            case Increment => spendingDelay := spendingDelay + 1;
            case Decrement =>
              if spendingDelay > 0 {
                spendingDelay := spendingDelay - 1;
              }
          }
      }
    }
  }

  class DefineCosigners {
    var cosigners: seq<Cosigner>

    constructor ()
      ensures cosigners == []
    {
      cosigners := [];
    }

    /** `load_context`: pop or push one cosigner at a time until the list
        has the declared length. */
    method LoadContext(ctx: Context)
      modifies this
      ensures cosigners == Resized(old(cosigners), ctx.numberCosigners)
    {
      ghost var start := cosigners;
      var n := ctx.numberCosigners;
      while |cosigners| != n
        invariant n == ctx.numberCosigners
        invariant |start| >= n ==> n <= |cosigners| <= |start| && cosigners == start[..|cosigners|]
        invariant |start| < n ==>
                    |start| <= |cosigners| <= n && cosigners == start + seq(|cosigners| - |start|, _ => NewCosigner())
        decreases if |cosigners| > n then |cosigners| - n else n - |cosigners|
      {
        if |cosigners| > n {
          cosigners := cosigners[..|cosigners| - 1];
        } else if |cosigners| < n {
          cosigners := cosigners + [NewCosigner()];
        }
      }
      assert |start| >= n ==> cosigners == start[..n];
    }

    /** `is_correct`: no cosigner has a flagged host or noise key. */
    function IsCorrect(): (r: bool)
      reads this
      ensures r <==> forall i :: 0 <= i < |cosigners| ==> !cosigners[i].warningHost && !cosigners[i].warningNoiseKey
    {
      AnyCosignerWarnedIff(cosigners);
      !AnyCosignerWarned(cosigners)
    }

    method Update(msg: InstallerMessage)
      modifies this
      ensures cosigners == CosignersNext(old(cosigners), msg)
    {
      if msg.CosignersMsg? && msg.index < |cosigners| {
        cosigners := cosigners[msg.index := CosignerNext(cosigners[msg.index], msg.cosignerMsg)];
      }
    }
  }
}
