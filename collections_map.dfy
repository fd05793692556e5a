/** EZ-Pass accounts: a mutable map from account id to credit, a read-only
    view of the same map, and an update that credits an existing account. */
module CollectionsMap {
  import opened Ints

  const POINTS_X_PASS: Int32 := 15

  /** A Kotlin `MutableMap<Int, Int>`: one object that every reference shares. */
  class MutableIntMap {
    var entries: map<Int32, Int32>

    constructor (entries: map<Int32, Int32>)
      ensures this.entries == entries
    {
      this.entries := entries;
    }
  }

  /** The accounts `mutableMapOf(1 to 100, 2 to 100, 3 to 100)`. */
  function InitialAccounts(): map<Int32, Int32> {
    map[1 := 100, 2 := 100, 3 := 100]
  }

  /** The file's two top-level values: `EZPassAccounts` and `EZPassReport`,
      which is the same map object seen through the read-only `Map` type. */
  class EZPass {
    const accounts: MutableIntMap
    const report: MutableIntMap

    ghost predicate Valid() {
      report == accounts
    }

    constructor ()
      ensures Valid() && fresh(accounts)
      ensures accounts.entries == InitialAccounts()
    {
      var m := new MutableIntMap(InitialAccounts());
      accounts := m;
      report := m;
    }

    /** What `EZPassReport` shows. */
    function Report(): (r: map<Int32, Int32>)
      reads report, accounts
      ensures Valid() ==> r == accounts.entries
    {
      report.entries
    }

    /** `updatePointsCredit`: credits an existing account, and leaves the map
        alone (only an error line is printed) for a missing one. */
    method UpdatePointsCredit(accountId: Int32)
      requires Valid()
      modifies accounts
      ensures Valid()
      ensures accounts.entries == Credited(old(accounts.entries), accountId)
      ensures Report() == accounts.entries
    {
      if accountId in accounts.entries {
        accounts.entries := accounts.entries[accountId := Add(accounts.entries[accountId], POINTS_X_PASS)];
      }
    }
  }

  /** The map after `updatePointsCredit(id)`. */
  function Credited(m: map<Int32, Int32>, id: Int32): (r: map<Int32, Int32>)
    ensures r.Keys == m.Keys
    ensures id in m ==> r[id] == Add(m[id], POINTS_X_PASS)
    ensures id in m && m[id] as int + POINTS_X_PASS as int <= MAX ==>
              r[id] as int == m[id] as int + POINTS_X_PASS as int
    ensures forall k :: k in m && k != id ==> r[k] == m[k]
    ensures id !in m ==> r == m
  {
    if id in m then m[id := Add(m[id], POINTS_X_PASS)] else m
  }

  /** Crediting never adds or removes an account. */
  lemma {:induction false} CreditsKeepKeys(m: map<Int32, Int32>, ids: seq<Int32>)
    ensures CreditAll(m, ids).Keys == m.Keys
  {
    if ids != [] {
      CreditsKeepKeys(Credited(m, ids[0]), ids[1..]);
    }
  }

  /** The map after `updatePointsCredit` for each id in turn. */
  function CreditAll(m: map<Int32, Int32>, ids: seq<Int32>): map<Int32, Int32> {
    if ids == [] then m else CreditAll(Credited(m, ids[0]), ids[1..])
  }

  /** `main`: the report before, then two updates of account 1 and one of the
      missing account 5, then the report after. */
  method Demo() returns (before: map<Int32, Int32>, after: map<Int32, Int32>)
    ensures before == map[1 := 100, 2 := 100, 3 := 100]
    ensures after == map[1 := 130, 2 := 100, 3 := 100]
  {
    var ez := new EZPass();
    before := ez.Report();
    ez.UpdatePointsCredit(1);
    ez.UpdatePointsCredit(1);
    ez.UpdatePointsCredit(5);
    after := ez.Report();
  }
}
