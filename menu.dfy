/** The two numbered menus of the main loop, over an already-parsed choice. */
module Menu {
  import opened Wrappers

  /** The country name that marks an unusable country choice. */
  const Invalid := "Ogiltig"

  /** The office menu as its prompt lists it: entry i is choice i + 1. */
  const Offices: seq<(string, string)> :=
    [("USA", "USD"), ("Tyskland", "EUR"), ("Storbritannien", "GBP"), ("Sverige", "SEK")]

  /** The asset-type menu as its prompt lists it: entry i is choice i + 1. */
  const AssetTypes: seq<string> := ["Laptop", "Mobiltelefon"]

  /** GetCountryAndCurrency after int.Parse: the chosen (country, currency),
      or the invalid marker paired with USD for any other number. */
  function CountryAndCurrency(choice: int): (r: (string, string))
    ensures 1 <= choice <= |Offices| ==> r == Offices[choice - 1]
    ensures !(1 <= choice <= |Offices|) ==> r == (Invalid, "USD")
    ensures r.0 == Invalid <==> !(1 <= choice <= |Offices|)
  {
    match choice
    case 1 => ("USA", "USD")
    case 2 => ("Tyskland", "EUR")
    case 3 => ("Storbritannien", "GBP")
    case 4 => ("Sverige", "SEK")
    case _ => (Invalid, "USD")
  }

  /** GetAssetType after int.Parse: the chosen type, or null (None). */
  function AssetType(choice: int): (r: Option<string>)
    ensures r.Some? <==> 1 <= choice <= |AssetTypes|
    ensures r.Some? ==> r.value == AssetTypes[choice - 1]
  {
    match choice
    case 1 => Some("Laptop")
    case 2 => Some("Mobiltelefon")
    case _ => None
  }

  /** Distinct valid office choices select distinct countries, so the
      country filter tells the four offices apart. */
  lemma OfficeChoicesAreDistinct(c1: int, c2: int)
    requires 1 <= c1 <= |Offices| && 1 <= c2 <= |Offices| && c1 != c2
    ensures CountryAndCurrency(c1).0 != CountryAndCurrency(c2).0
    ensures CountryAndCurrency(c1).1 != CountryAndCurrency(c2).1
  {
  }
}
