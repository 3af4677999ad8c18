/** Status filters and balances over a daemon vault list. Every balance is a
    sum over the list (amounts are unbounded here, see the README). The sums
    recurse on the last vault, so that a left-to-right accumulator loop keeps
    `acc == Sum(vaults[..i])`. */
module Balances {
  import opened Model

  const AllStatuses: set<VaultStatus> :=
    {Unconfirmed, Funded, Securing, Secured, Activating, Active, Unvaulting, Unvaulted,
     Canceling, Canceled, EmergencyVaulting, EmergencyVaulted, Spending, Spent, Spendable}

  /** The manager's "active" bucket, also the delegate screen's balance. */
  const ActiveStatuses: set<VaultStatus> := {Active, Unvaulting, Unvaulted}
  /** The manager's "inactive" bucket. */
  const InactiveStatuses: set<VaultStatus> := {Secured, Funded, Unconfirmed}
  /** What neither manager bucket counts. */
  const OtherStatuses: set<VaultStatus> := AllStatuses - ActiveStatuses - InactiveStatuses

  /** Vaults the manager home lists: those being unvaulted. */
  const UnvaultingStatuses: set<VaultStatus> := {Unvaulting, Unvaulted}
  /** Vaults the stakeholder home lists: those moving on chain. */
  const MovingStatuses: set<VaultStatus> := {Canceling, Spending, Unvaulting, Unvaulted}
  /** Statuses the stakeholder home's per-status balance skips. */
  const UncountedStatuses: set<VaultStatus> := {Unconfirmed, Spent, Spending}

  /** The statuses of a status slice, as a set (`slice.contains`). */
  function StatusSet(statuses: seq<VaultStatus>): set<VaultStatus> {
    set st | st in statuses
  }

  /** The vaults whose status is in `statuses`, in list order. */
  function KeepWhere(vs: seq<Vault>, statuses: set<VaultStatus>): seq<Vault>
    decreases |vs|
  {
    if |vs| == 0 then []
    else
      var last := vs[|vs| - 1];
      KeepWhere(vs[..|vs| - 1], statuses) + (if last.status in statuses then [last] else [])
  }

  function SumWhere(vs: seq<Vault>, statuses: set<VaultStatus>): nat
    decreases |vs|
  {
    if |vs| == 0 then 0
    else
      var last := vs[|vs| - 1];
      SumWhere(vs[..|vs| - 1], statuses) + (if last.status in statuses then last.amount else 0)
  }

  function CountWhere(vs: seq<Vault>, statuses: set<VaultStatus>): nat
    decreases |vs|
  {
    if |vs| == 0 then 0
    else
      var last := vs[|vs| - 1];
      CountWhere(vs[..|vs| - 1], statuses) + (if last.status in statuses then 1 else 0)
  }

  /** The sum of all amounts. */
  function Total(vs: seq<Vault>): nat
    decreases |vs|
  {
    if |vs| == 0 then 0 else Total(vs[..|vs| - 1]) + vs[|vs| - 1].amount
  }

  /** The manager home's balance: (active, inactive). */
  function ManagerBalance(vs: seq<Vault>): (nat, nat) {
    (SumWhere(vs, ActiveStatuses), SumWhere(vs, InactiveStatuses))
  }

  /** The stakeholder home's per-status (count, amount) map, built vault by
      vault the way its loop builds it. */
  function StatusBalance(vs: seq<Vault>): map<VaultStatus, (nat, nat)>
    decreases |vs|
  {
    if |vs| == 0 then map[]
    else StatusBalanceStep(StatusBalance(vs[..|vs| - 1]), vs[|vs| - 1])
  }

  /** One iteration of the per-status balance loop. */
  function StatusBalanceStep(m: map<VaultStatus, (nat, nat)>, v: Vault): map<VaultStatus, (nat, nat)> {
    if v.status in UncountedStatuses then m
    else if v.status in m then m[v.status := (m[v.status].0 + 1, m[v.status].1 + v.amount)]
    else m[v.status := (1, v.amount)]
  }

  lemma {:induction false} KeepWhereMembers(vs: seq<Vault>, statuses: set<VaultStatus>)
    ensures forall v :: v in KeepWhere(vs, statuses) <==> v in vs && v.status in statuses
    ensures |KeepWhere(vs, statuses)| == CountWhere(vs, statuses)
    decreases |vs|
  {
    if |vs| > 0 {
      var init := vs[..|vs| - 1];
      KeepWhereMembers(init, statuses);
      assert vs == init + [vs[|vs| - 1]];
    }
  }

  /** Filtering a concatenation filters each part: with the one-vault case
      this says the filter keeps exactly the matching vaults, in order. */
  lemma {:induction false} KeepWhereAppend(a: seq<Vault>, b: seq<Vault>, statuses: set<VaultStatus>)
    ensures KeepWhere(a + b, statuses) == KeepWhere(a, statuses) + KeepWhere(b, statuses)
    ensures KeepWhere([], statuses) == []
    ensures forall v :: KeepWhere([v], statuses) == if v.status in statuses then [v] else []
    decreases |b|
  {
    if |b| > 0 {
      var b' := b[..|b| - 1];
      var last := b[|b| - 1];
      var tail := if last.status in statuses then [last] else [];
      assert (a + b)[..|a + b| - 1] == a + b';
      assert (a + b)[|a + b| - 1] == last;
      assert KeepWhere(a + b, statuses) == KeepWhere(a + b', statuses) + tail;
      assert KeepWhere(b, statuses) == KeepWhere(b', statuses) + tail;
      KeepWhereAppend(a, b', statuses);
    } else {
      assert a + b == a;
    }
    forall v | true
      ensures KeepWhere([v], statuses) == if v.status in statuses then [v] else []
    {
      assert [v][..0] == [];
    }
  }

  /** A filter that admits every status present keeps the whole list. */
  lemma {:induction false} KeepWhereAll(vs: seq<Vault>, statuses: set<VaultStatus>)
    requires forall i :: 0 <= i < |vs| ==> vs[i].status in statuses
    ensures KeepWhere(vs, statuses) == vs
    decreases |vs|
  {
    if |vs| > 0 {
      KeepWhereAll(vs[..|vs| - 1], statuses);
      assert vs == vs[..|vs| - 1] + [vs[|vs| - 1]];
    }
  }

  /** The amount summed over a status set is the total of the vaults the
      same set filters in. */
  lemma {:induction false} SumWhereIsTotalOfKept(vs: seq<Vault>, statuses: set<VaultStatus>)
    ensures SumWhere(vs, statuses) == Total(KeepWhere(vs, statuses))
    decreases |vs|
  {
    if |vs| > 0 {
      var init := vs[..|vs| - 1];
      var last := vs[|vs| - 1];
      SumWhereIsTotalOfKept(init, statuses);
      TotalAppend(KeepWhere(init, statuses), if last.status in statuses then [last] else []);
    }
  }

  lemma {:induction false} TotalAppend(a: seq<Vault>, b: seq<Vault>)
    ensures Total(a + b) == Total(a) + Total(b)
    decreases |b|
  {
    if |b| > 0 {
      assert (a + b)[..|a + b| - 1] == a + b[..|b| - 1];
      TotalAppend(a, b[..|b| - 1]);
    } else {
      assert a + b == a;
    }
  }

  /** Sums over disjoint status sets add up. */
  lemma {:induction false} SumWhereDisjoint(vs: seq<Vault>, a: set<VaultStatus>, b: set<VaultStatus>)
    requires a !! b
    ensures SumWhere(vs, a + b) == SumWhere(vs, a) + SumWhere(vs, b)
    ensures CountWhere(vs, a + b) == CountWhere(vs, a) + CountWhere(vs, b)
    decreases |vs|
  {
    if |vs| > 0 {
      SumWhereDisjoint(vs[..|vs| - 1], a, b);
    }
  }

  lemma {:induction false} SumWhereAllIsTotal(vs: seq<Vault>)
    ensures SumWhere(vs, AllStatuses) == Total(vs)
    decreases |vs|
  {
    if |vs| > 0 {
      SumWhereAllIsTotal(vs[..|vs| - 1]);
      StatusListed(vs[|vs| - 1].status);
    }
  }

  lemma StatusListed(st: VaultStatus)
    ensures st in AllStatuses
  {
    match st
    case Unconfirmed => case Funded => case Securing => case Secured => case Activating =>
    case Active => case Unvaulting => case Unvaulted => case Canceling => case Canceled =>
    case EmergencyVaulting => case EmergencyVaulted => case Spending => case Spent =>
    case Spendable =>
  }

  lemma {:induction false} NoneCountedNoneSummed(vs: seq<Vault>, statuses: set<VaultStatus>)
    ensures CountWhere(vs, statuses) == 0 ==> SumWhere(vs, statuses) == 0
    decreases |vs|
  {
    if |vs| > 0 {
      NoneCountedNoneSummed(vs[..|vs| - 1], statuses);
    }
  }

  /** The two manager buckets are disjoint and miss exactly the other
      statuses: active + inactive + other == total. */
  lemma ManagerBalancePartition(vs: seq<Vault>)
    ensures ActiveStatuses !! InactiveStatuses
    ensures ManagerBalance(vs).0 + ManagerBalance(vs).1 + SumWhere(vs, OtherStatuses) == Total(vs)
  {
    SumWhereDisjoint(vs, ActiveStatuses, InactiveStatuses);
    SumWhereDisjoint(vs, ActiveStatuses + InactiveStatuses, OtherStatuses);
    assert ActiveStatuses + InactiveStatuses + OtherStatuses == AllStatuses;
    SumWhereAllIsTotal(vs);
  }

  /** The per-status map has a key exactly for each counted status present,
      holding the number of vaults with that status and their amount. */
  lemma {:induction false} StatusBalanceCounts(vs: seq<Vault>)
    ensures forall st :: st in StatusBalance(vs) <==> st !in UncountedStatuses && CountWhere(vs, {st}) > 0
    ensures forall st :: st in StatusBalance(vs) ==>
              StatusBalance(vs)[st] == (CountWhere(vs, {st}), SumWhere(vs, {st}))
    decreases |vs|
  {
    if |vs| > 0 {
      var init := vs[..|vs| - 1];
      StatusBalanceCounts(init);
      forall st | st in StatusBalance(vs)
        ensures StatusBalance(vs)[st] == (CountWhere(vs, {st}), SumWhere(vs, {st}))
      {
        if st !in StatusBalance(init) {
          NoneCountedNoneSummed(init, {st});
        }
      }
    }
  }
}
