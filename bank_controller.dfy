/**
 * The Spring bank controller's `seedBanks`: on an empty `banks` table it saves the ten
 * catalogue banks in order; on a non-empty table it does nothing. The JPA repository is
 * modelled as its rows and the next identity value.
 */
module SpringBanks {
  import opened Wrappers
  import opened BankCatalogue
  import opened Schema
  import StorageSpec

  /** The rows `seedBanks` saves into an empty table whose identity counter is at `start`. */
  function SeededRows(start: int): (r: seq<Bank>)
    ensures |r| == |DefaultBanks| == 10
    ensures forall i :: 0 <= i < |r| ==> r[i].id == start + i
    ensures forall i :: 0 <= i < |r| ==>
      r[i].name == DefaultBanks[i].name && r[i].icon == Some(DefaultBanks[i].icon)
  {
    seq(|DefaultBanks|, i requires 0 <= i < |DefaultBanks| =>
      Bank(start + i, DefaultBanks[i].name, Some(DefaultBanks[i].icon)))
  }

  /** The table and counter after `seedBanks`. */
  function SeedOutcome(rows: seq<Bank>, nextId: int): (r: (seq<Bank>, int))
    ensures |rows| == 0 ==> |r.0| == 10 && r.1 == nextId + 10
    ensures |rows| != 0 ==> r == (rows, nextId)
  {
    if |rows| == 0 then (SeededRows(nextId), nextId + 10) else (rows, nextId)
  }

  /** The table `banks`. */
  class BankRepository {
    var rows: seq<Bank>
    var nextId: int

    constructor()
      ensures rows == [] && nextId == 1
    {
      rows := [];
      nextId := 1;
    }

    /** `count()`. */
    function Count(): (n: nat)
      reads this
      ensures n == 0 <==> rows == []
    {
      |rows|
    }

    /** `save(new Bank(name, icon))`: a new row under the next identity value. */
    method Save(name: string, icon: string) returns (saved: Bank)
      modifies this
      ensures saved == Bank(old(nextId), name, Some(icon))
      ensures rows == old(rows) + [saved] && nextId == old(nextId) + 1
    {
      saved := Bank(nextId, name, Some(icon));
      rows := rows + [saved];
      nextId := nextId + 1;
    }
  }

  class BankController {
    const repository: BankRepository

    constructor(repository: BankRepository)
      ensures this.repository == repository
    {
      this.repository := repository;
    }

    /** `seedBanks()`: the guarded loop over the catalogue, one `save` per bank. */
    method SeedBanks()
      modifies repository
      ensures (repository.rows, repository.nextId) == SeedOutcome(old(repository.rows), old(repository.nextId))
    {
      if repository.Count() == 0 {
        ghost var start := repository.nextId;
        var i := 0;
        while i < |DefaultBanks|
          invariant 0 <= i <= |DefaultBanks|
          invariant repository.rows == SeededRows(start)[..i]
          invariant repository.nextId == start + i
        {
          var _ := repository.Save(DefaultBanks[i].name, DefaultBanks[i].icon);
          assert SeededRows(start)[..i + 1] == SeededRows(start)[..i] + [SeededRows(start)[i]];
          i := i + 1;
        }
        assert SeededRows(start)[..10] == SeededRows(start);
      }
    }
  }

  /** A second `seedBanks` finds the table non-empty and changes nothing. */
  lemma SeedIdempotent(rows: seq<Bank>, nextId: int)
    ensures var once := SeedOutcome(rows, nextId);
      SeedOutcome(once.0, once.1) == once
  {
  }

  /** The saved names and icons, in order. */
  lemma SeededCatalogue(start: int)
    ensures [SeededRows(start)[0].name, SeededRows(start)[1].name, SeededRows(start)[2].name,
             SeededRows(start)[3].name, SeededRows(start)[4].name, SeededRows(start)[5].name,
             SeededRows(start)[6].name, SeededRows(start)[7].name, SeededRows(start)[8].name,
             SeededRows(start)[9].name]
         == ["Chase", "Bank of America", "Citi", "Wells Fargo", "Goldman Sachs", "HSBC",
             "Barclays", "Santander", "US Bank", "PNC"]
    ensures [SeededRows(start)[0].icon, SeededRows(start)[1].icon, SeededRows(start)[2].icon,
             SeededRows(start)[3].icon, SeededRows(start)[4].icon, SeededRows(start)[5].icon,
             SeededRows(start)[6].icon, SeededRows(start)[7].icon, SeededRows(start)[8].icon,
             SeededRows(start)[9].icon]
         == [Some("Landmark"), Some("Building2"), Some("Globe"), Some("Briefcase"), Some("TrendingUp"),
             Some("Landmark"), Some("Building"), Some("CreditCard"), Some("Wallet"), Some("DollarSign")]
  {
  }

  /** On a fresh table the Spring seed and the Node store's seed yield the same banks. */
  lemma SameAsNodeSeed()
    ensures SeededRows(1) == StorageSpec.CatalogueBanks()
  {
    var a, b := SeededRows(1), StorageSpec.CatalogueBanks();
    assert forall i :: 0 <= i < 10 ==> a[i] == b[i];
  }
}
