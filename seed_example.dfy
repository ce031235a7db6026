/** Facts about the seed list the program starts from. */
module SeedExample {
  import opened Assets
  import Query
  import Lifecycle
  import Menu
  import Search

  /** Every seed asset reaches its end of life well before year 9999, so
      AddYears(3) never throws on the seed list. */
  lemma SeedEndsOfLifeAreRepresentable()
    ensures forall a :: a in SeedAssets ==> a.purchaseDate.year + Lifecycle.LifetimeYears <= MaxYear
  {
  }

  /** A search over the seed list either restarts or shows its rows. */
  lemma SeedSearchNeverThrows(countryChoice: int, typeChoice: int, nowYear: int, nowMonth: int)
    ensures !Search.SearchOnce(SeedAssets, countryChoice, typeChoice, nowYear, nowMonth).Thrown?
  {
    SeedEndsOfLifeAreRepresentable();
    Search.SearchOnceOutcome(SeedAssets, countryChoice, typeChoice, nowYear, nowMonth);
    if 1 <= countryChoice <= 4 && 1 <= typeChoice <= 2 {
      var country := Menu.Offices[countryChoice - 1].0;
      var assetType := Menu.AssetTypes[typeChoice - 1];
      Query.SelectContract(SeedAssets, country, assetType);
    }
  }

  /** The US laptop bought in October 2019 at the seed list's head: in
      October 2024 its end of life is 24 months past, and its row is white. */
  lemma DellRowIsWhiteInOctober2024()
    ensures Lifecycle.MonthsToEndOfLife(SeedAssets[0].purchaseDate, 2024, 10).value == -24
    ensures Lifecycle.ConsoleColorOf(Lifecycle.ColorCode(SeedAssets[0], 2024, 10).value) == Lifecycle.White
  {
  }
}
