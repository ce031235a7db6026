# Asset Tracking report, modelled in Dafny

A model of the logic of the console asset lister in `Program.cs`. The
program keeps a fixed list of company laptops and phones. In each pass of
its main loop the user picks an office (country and currency) and an asset
type. The program then lists the matching assets, newest purchase first,
with each price shown in the office's currency. Each row is coloured by how
close the asset is to the end of its three-year life.

Modules, one per part of the program:

- `Wrappers`: `Option`, used for C# `null` and for calls that throw.
- `Assets`: the `Asset` record; the part of `System.DateTime` the program
  uses (a valid calendar date, `AddYears`, comparison); the seed list from
  `InitializeAssets`.
- `Menu`: `GetCountryAndCurrency` and `GetAssetType`, taking a choice that
  `int.Parse` has already produced.
- `Rates`: the rate table rebased on a currency (`GetCurrencyConversionRates`)
  and the per-row price of `DisplayAssets`.
- `Lifecycle`: the month count and the colour code from `GetColorCode`, and
  `GetConsoleColor`.
- `Query`: the `Where` / `OrderByDescending` query, as a filter followed by a
  stable insertion sort.
- `Search`: one pass of `Main`'s loop. The choices and the clock come in as
  parameters. The pass either restarts, shows the rows, or throws.
- `SeedExample`: facts about the seed list.

Modelling decisions:

- `decimal` prices and rates are Dafny `real`s, so there is no 28-digit
  rounding. Two of the facts proved here are exact in `decimal` too: the
  base currency's own entry is 1 (a rate divided by itself), and a price
  displayed in the base currency is the stored price (times 1). The facts
  that multiply a rebased entry back by the base rate
  (`ConversionRates`, `DisplayedPriceConverts`) and the cross-rate fact
  (`RebasingKeepsCrossRates`) hold in `decimal` only up to rounding: with
  base SEK, 1/8.5 rounds to 28 digits and times 8.5 is not exactly 1.
- `DateTime.Now` is read twice on line 86: once for the year, once for the
  month. The model therefore takes `nowYear` and `nowMonth` as two separate
  parameters.
- Dates have no time of day, because every seed date is at midnight.
  `DateTime` is a valid Gregorian date with year 1 to 9999. Comparison is by
  year, then month, then day.
- `AddYears(3)` throws `ArgumentOutOfRangeException` once the year would go
  past 9999. A dictionary lookup of an unknown base currency throws
  `KeyNotFoundException`. Both are modelled as `None`. A pass of the loop in
  which one of them happens ends as `Thrown`.
- Stability of `OrderByDescending` means this: for every date, the assets
  bought on that date come out in their input order. `StableSortIsUnique`
  shows that this, together with sortedness, fixes the result completely.

What the program does not do:

- `Program.cs` classifies by whole months to the end-of-life month, not by
  days. Its buckets are RED (0 to 3), YELLOW (4 to 6), GREEN (over 24) and
  DEFAULT (below 0, or 7 to 24). DEFAULT and every other code print white.
- `Program.cs` divides the whole table by the display currency's rate and
  then multiplies by that same currency's entry. Prices are therefore always
  shown as stored (`SameCurrencyShowsStoredPrice`, `SearchOnceOutcome`).
- A display currency missing from the table gives factor 1. A base currency
  missing from the table throws.
- `Program.cs` does not check assets: nothing rejects a negative price or an
  unknown type.

## Model

| member | source | states |
|---|---|---|
| `Assets.AddYears` | Program.cs:86 | DateTime.AddYears: defined exactly when the target year is in 1..9999; the year moves by n, the month is kept, and the day changes only for 29 February going to a non-leap year, where it becomes 28 |
| `Assets.EarlierIsStrictTotalOrder` | Program.cs:28 | the date order used by the sort is irreflexive, asymmetric, transitive and total |
| `Menu.CountryAndCurrency` | Program.cs:43-50 | choices 1 to 4 give (USA, USD), (Tyskland, EUR), (Storbritannien, GBP), (Sverige, SEK), as the menu lists them; any other integer gives (Ogiltig, USD); the country is Ogiltig exactly when the choice is outside 1..4 |
| `Menu.AssetType` | Program.cs:57-62 | a type is returned exactly for choices 1 and 2: Laptop and Mobiltelefon; any other integer gives null |
| `Menu.OfficeChoicesAreDistinct` | Program.cs:41-50 | two different valid office choices give different countries and different currencies |
| `Rates.ConversionRates` | Program.cs:65-69 | defined exactly when the base is one of the four table keys; the result has exactly the keys USD, EUR, GBP and SEK; each entry times the base's raw rate is that key's raw rate; the base's own entry is 1 |
| `Rates.RebasingKeepsCrossRates` | Program.cs:67-68 | for any base, the ratio of two rebased entries equals the ratio of their raw rates |
| `Rates.DisplayedPrice` | Program.cs:77 | the displayed price is the stored price times the table entry when the display currency is in the table, and the stored price (factor 1) when it is not |
| `Rates.DisplayedPriceConverts` | Program.cs:68-77 | with a table rebased on any known base, the displayed price in a known currency times the base's raw rate equals the stored price times that currency's raw rate |
| `Rates.SameCurrencyShowsStoredPrice` | Program.cs:31-32 | with the table built from the display currency, every displayed price equals the stored price |
| `Lifecycle.MonthsToEndOfLife` | Program.cs:86 | defined exactly when purchase year + 3 is at most 9999; then equals (purchase year + 3 - now year) * 12 + purchase month - now month |
| `Lifecycle.DayPlaysNoPart` | Program.cs:86 | two purchase dates with the same year and month give the same month count |
| `Lifecycle.CodeForMonths` | Program.cs:87-94 | RED exactly for 0..3 months, YELLOW exactly for 4..6, GREEN exactly for more than 24, DEFAULT exactly for below 0 or 7..24 |
| `Lifecycle.ColorCode` | Program.cs:84-95 | defined exactly when AddYears(3) does not throw; the code is then one of DEFAULT, RED, YELLOW, GREEN |
| `Lifecycle.ConsoleColorOf` | Program.cs:97-104 | Red exactly for RED, Yellow exactly for YELLOW, Green exactly for GREEN, White exactly for every other string |
| `Lifecycle.RowColorBuckets` | Program.cs:84-104 | a row is red exactly when 0..3 months remain, yellow for 4..6, green for more than 24, white when the end of life has passed or 7..24 months remain |
| `Query.WhereKeepsMatches` | Program.cs:27 | the filter keeps each asset of the chosen country and type as many times as the input has it, and drops every other asset |
| `Query.OrderIsSorted` | Program.cs:28 | the sorted list has no asset bought strictly after an asset before it |
| `Query.OrderPermutes` | Program.cs:28 | the sorted list is a permutation of its input |
| `Query.OrderIsStable` | Program.cs:28 | for every date, the assets bought on that date keep their input order |
| `Query.StableSortIsUnique` | Program.cs:28 | any date-sorted list that keeps the order of each date's assets is exactly the sort's result |
| `Query.SelectContract` | Program.cs:26-29 | the query result is sorted newest first; it holds exactly the input's assets of the chosen country and type, with their multiplicities; for each date it lists the matching assets of that date in input order; it is empty when nothing matches |
| `Search.Rows` | Program.cs:75-80 | a row exists for every asset, in order, exactly when no asset's AddYears(3) throws; each row carries its asset, the price times the display factor, and the colour of its code |
| `Search.SearchOnceOutcome` | Program.cs:18-32 | a pass restarts exactly when the office choice is outside 1..4 or the type choice is outside 1..2; a shown pass lists the query's result in order, in the chosen office's currency, at the stored prices; a pass throws exactly when a selected asset's end of life would fall after year 9999 |
| `SeedExample.SeedEndsOfLifeAreRepresentable` | Program.cs:112-129 | every seed asset's purchase year + 3 is within DateTime's range |
| `SeedExample.SeedSearchNeverThrows` | Program.cs:12-32 | a pass over the seed list never throws |
| `SeedExample.DellRowIsWhiteInOctober2024` | Program.cs:114 | the first seed asset is 24 months past its end of life in October 2024, and its row is white |

## Left out

- Console I/O is not modelled: the prompts, `Console.ReadLine` and `ReadKey`, `AskToSearchAgain`, the header and row `WriteLine`s, and the `ForegroundColor` and `ResetColor` changes. A row's colour is kept as a value.
- `int.Parse` on user text is not modelled. Non-numeric input throws `FormatException`; end of input becomes "0". The menu functions take the parsed integer. A 32-bit range makes no difference to a switch over 1..4.
- Currency formatting (`ToString("C")`) and `ToShortDateString` depend on the locale and are left out.
- The `while (true)` loop is modelled as one pass (`Search.SearchOnce`). Repeating the pass is I/O driven.
- If `GetColorCode` throws part-way through `DisplayAssets`, the rows printed before it are not modelled. That pass is reported as `Thrown`.
- Time of day and the full `DateTime` tick arithmetic are left out. Dates are (year, month, day) values at midnight.
- `decimal` rounding is left out. Rates and prices are exact reals.
- The `Asset` class has reference identity, which the model does not keep. The code never uses it: the query compares properties only.
