/** The asset record of the inventory, the part of System.DateTime the report
    relies on, and the seed list the program starts from. */
module Assets {
  import opened Wrappers

  /** Gregorian leap years, as System.DateTime counts them. */
  predicate IsLeapYear(y: int) {
    y % 4 == 0 && (y % 100 != 0 || y % 400 == 0)
  }

  function DaysInMonth(y: int, m: int): (n: int)
    requires 1 <= m <= 12
    ensures 28 <= n <= 31
    ensures n == 29 <==> m == 2 && IsLeapYear(y)
  {
    if m == 2 then (if IsLeapYear(y) then 29 else 28)
    else if m == 4 || m == 6 || m == 9 || m == 11 then 30
    else 31
  }

  const MinYear := 1
  const MaxYear := 9999

  /** A calendar date; the seed data has no time of day, so a DateTime is
      represented by its year, month and day. */
  datatype Date = Date(year: int, month: int, day: int)

  predicate ValidDate(d: Date) {
    MinYear <= d.year <= MaxYear && 1 <= d.month <= 12 && 1 <= d.day <= DaysInMonth(d.year, d.month)
  }

  type DateTime = d: Date | ValidDate(d) witness Date(1, 1, 1)

  /** DateTime.AddYears: the year moves by n, the month stays, the day is
      clamped to the length of the target month (only 29 February can move,
      to 28 February), and a year outside 1..9999 throws, given here as None. */
  function AddYears(d: DateTime, n: int): (r: Option<DateTime>)
    ensures r.Some? <==> MinYear <= d.year + n <= MaxYear
    ensures r.Some? ==> r.value.year == d.year + n && r.value.month == d.month
    ensures r.Some? && r.value.day != d.day ==>
              d.month == 2 && d.day == 29 && r.value.day == 28 && !IsLeapYear(d.year + n)
  {
    var y := d.year + n;
    if y < MinYear || MaxYear < y then None
    else
      var last := DaysInMonth(y, d.month);
      Some(Date(y, d.month, if d.day > last then last else d.day))
  }

  /** DateTime comparison: a strictly earlier instant. Midnight dates
      compare by year, then month, then day. */
  predicate Earlier(a: Date, b: Date) {
    a.year < b.year ||
    (a.year == b.year && (a.month < b.month || (a.month == b.month && a.day < b.day)))
  }

  lemma EarlierIsStrictTotalOrder(a: Date, b: Date, c: Date)
    ensures !Earlier(a, a)
    ensures Earlier(a, b) ==> !Earlier(b, a)
    ensures Earlier(a, b) && Earlier(b, c) ==> Earlier(a, c)
    ensures a == b || Earlier(a, b) || Earlier(b, a)
  {
  }

  /** One tracked item (the Asset class: get-only properties set once by its
      constructor, so a value). Price is a C# decimal, modelled as a real. */
  datatype Asset = Asset(
    assetType: string,
    brand: string,
    model: string,
    price: real,
    purchaseDate: DateTime,
    country: string)

  /** The list InitializeAssets builds at start-up. */
  const SeedAssets: seq<Asset> := [
    Asset("Laptop", "Dell", "XPS 13", 1200.0, Date(2019, 10, 15), "USA"),
    Asset("Mobiltelefon", "Samsung", "Galaxy S10", 800.0, Date(2019, 8, 1), "Tyskland"),
    Asset("Laptop", "HP", "Spectre x360", 1300.0, Date(2021, 6, 1), "USA"),
    Asset("Mobiltelefon", "Apple", "iPhone 12", 999.0, Date(2021, 11, 15), "Tyskland"),
    Asset("Laptop", "Apple", "MacBook Pro", 2400.0, Date(2022, 5, 10), "Tyskland"),
    Asset("Mobiltelefon", "Google", "Pixel 5", 699.0, Date(2022, 3, 15), "Storbritannien"),
    Asset("Laptop", "Lenovo", "ThinkPad X1", 1500.0, Date(2023, 1, 20), "Tyskland"),
    Asset("Mobiltelefon", "OnePlus", "OnePlus 9", 799.0, Date(2023, 4, 25), "Storbritannien"),
    Asset("Laptop", "Asus", "ZenBook", 1400.0, Date(2022, 7, 20), "USA"),
    Asset("Mobiltelefon", "Xiaomi", "Mi 11", 749.0, Date(2022, 10, 1), "Tyskland"),
    Asset("Mobiltelefon", "Sony", "Xperia 5", 899.0, Date(2023, 2, 5), "Storbritannien"),
    Asset("Laptop", "Razer", "Blade 15", 2500.0, Date(2023, 3, 12), "USA"),
    Asset("Mobiltelefon", "Nokia", "G50", 299.0, Date(2021, 5, 1), "Storbritannien"),
    Asset("Laptop", "Acer", "Aspire 5", 600.0, Date(2023, 5, 10), "Sverige"),
    Asset("Mobiltelefon", "Huawei", "P30", 599.0, Date(2021, 4, 20), "Sverige")
  ]
}
