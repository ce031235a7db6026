/** One pass of the main loop (lines 18 to 32): decode both menu choices,
    run the query, build the rate table and compute what each printed row
    shows. Reading the choices, printing and asking to search again are
    console I/O and stay outside. */
module Search {
  import opened Wrappers
  import opened Assets
  import Menu
  import Rates
  import Query
  import Lifecycle

  /** What one printed row shows, apart from text formatting. */
  datatype Row = Row(asset: Asset, price: real, color: Lifecycle.ConsoleColor)

  /** How one pass ends: the loop restarts on an invalid choice, shows the
      rows, or stops with an exception thrown while the rows are produced. */
  datatype Pass = Restart | Shown(currency: string, rows: seq<Row>) | Thrown

  /** The rows DisplayAssets prints, in order; None when GetColorCode throws
      for one of them. */
  function Rows(assets: seq<Asset>, rates: map<string, real>, currency: string, nowYear: int, nowMonth: int)
    : (r: Option<seq<Row>>)
    ensures r.Some? <==> forall i :: 0 <= i < |assets| ==> assets[i].purchaseDate.year + Lifecycle.LifetimeYears <= MaxYear
    ensures r.Some? ==> |r.value| == |assets|
    ensures r.Some? ==> forall i :: 0 <= i < |assets| ==>
              && r.value[i].asset == assets[i]
              && r.value[i].price == Rates.DisplayedPrice(assets[i].price, rates, currency)
              && r.value[i].color == Lifecycle.ConsoleColorOf(Lifecycle.ColorCode(assets[i], nowYear, nowMonth).value)
  {
    if assets == [] then Some([])
    else
      match Lifecycle.ColorCode(assets[0], nowYear, nowMonth)
      case None => None
      case Some(code) =>
        var row := Row(assets[0], Rates.DisplayedPrice(assets[0].price, rates, currency),
                       Lifecycle.ConsoleColorOf(code));
        match Rows(assets[1..], rates, currency, nowYear, nowMonth)
        case None => None
        case Some(rest) => Some([row] + rest)
  }

  function SearchOnce(assets: seq<Asset>, countryChoice: int, typeChoice: int, nowYear: int, nowMonth: int)
    : (p: Pass)
  {
    var (country, currency) := Menu.CountryAndCurrency(countryChoice);
    if country == Menu.Invalid then Restart
    else
      match Menu.AssetType(typeChoice)
      case None => Restart
      case Some(assetType) =>
        var selected := Query.Select(assets, country, assetType);
        match Rates.ConversionRates(currency)
        case None => Thrown
        case Some(rates) =>
          match Rows(selected, rates, currency, nowYear, nowMonth)
          case None => Thrown
          case Some(rows) => Shown(currency, rows)
  }

  /** One pass of the loop: it restarts exactly on an invalid menu choice;
      otherwise it shows, in the currency of the chosen office, the assets the
      query selects, in query order and at their stored price; it throws only
      when a selected asset's end of life falls after year 9999. */
  lemma SearchOnceOutcome(assets: seq<Asset>, countryChoice: int, typeChoice: int, nowYear: int, nowMonth: int)
    ensures var p := SearchOnce(assets, countryChoice, typeChoice, nowYear, nowMonth);
            p.Restart? <==> !(1 <= countryChoice <= |Menu.Offices| && 1 <= typeChoice <= |Menu.AssetTypes|)
    ensures var p := SearchOnce(assets, countryChoice, typeChoice, nowYear, nowMonth);
            p.Shown? ==>
              var office := Menu.Offices[countryChoice - 1];
              var selected := Query.Select(assets, office.0, Menu.AssetTypes[typeChoice - 1]);
              && p.currency == office.1
              && |p.rows| == |selected|
              && (forall i :: 0 <= i < |selected| ==> p.rows[i].asset == selected[i] && p.rows[i].price == selected[i].price)
    ensures var p := SearchOnce(assets, countryChoice, typeChoice, nowYear, nowMonth);
            p.Thrown? <==>
              && 1 <= countryChoice <= |Menu.Offices| && 1 <= typeChoice <= |Menu.AssetTypes|
              && exists a :: a in Query.Select(assets, Menu.Offices[countryChoice - 1].0, Menu.AssetTypes[typeChoice - 1])
                               && a.purchaseDate.year + Lifecycle.LifetimeYears > MaxYear
  {
  }
}
