/** GetColorCode and GetConsoleColor: how close an asset is to the end of its
    three-year life, and the colour its row is printed in. */
module Lifecycle {
  import opened Wrappers
  import opened Assets

  const LifetimeYears := 3

  /** The code strings GetColorCode produces. */
  const CodeDefault := "DEFAULT"
  const CodeRed := "RED"
  const CodeYellow := "YELLOW"
  const CodeGreen := "GREEN"

  /** The console colours GetConsoleColor produces. */
  datatype ConsoleColor = Red | Yellow | Green | White

  /** Whole months from (nowYear, nowMonth) to the month in which the asset
      reaches the end of its life; the two "now" values are separate reads of
      the clock. None when AddYears(3) throws. */
  function MonthsToEndOfLife(purchase: DateTime, nowYear: int, nowMonth: int): (r: Option<int>)
    ensures r.Some? <==> purchase.year + LifetimeYears <= MaxYear
    ensures r.Some? ==>
              r.value == (purchase.year + LifetimeYears - nowYear) * 12 + purchase.month - nowMonth
  {
    match AddYears(purchase, LifetimeYears)
    case None => None
    case Some(end) => Some((end.year - nowYear) * 12 + end.month - nowMonth)
  }

  /** Only the year and month of the purchase date take part. */
  lemma DayPlaysNoPart(p: DateTime, q: DateTime, nowYear: int, nowMonth: int)
    requires p.year == q.year && p.month == q.month
    ensures MonthsToEndOfLife(p, nowYear, nowMonth) == MonthsToEndOfLife(q, nowYear, nowMonth)
  {
  }

  /** The switch of GetColorCode over the month count: its arms are tried in
      order, so each bucket is a range. */
  function CodeForMonths(months: int): (code: string)
    ensures code == CodeRed <==> 0 <= months <= 3
    ensures code == CodeYellow <==> 4 <= months <= 6
    ensures code == CodeGreen <==> 24 < months
    ensures code == CodeDefault <==> months < 0 || 7 <= months <= 24
  {
    if months < 0 then CodeDefault
    else if months <= 3 then CodeRed
    else if months <= 6 then CodeYellow
    else if months > 24 then CodeGreen
    else CodeDefault
  }

  /** GetColorCode for one asset; None when AddYears(3) throws. */
  function ColorCode(asset: Asset, nowYear: int, nowMonth: int): (r: Option<string>)
    ensures r.Some? <==> asset.purchaseDate.year + LifetimeYears <= MaxYear
    ensures r.Some? ==> r.value in {CodeDefault, CodeRed, CodeYellow, CodeGreen}
  {
    match MonthsToEndOfLife(asset.purchaseDate, nowYear, nowMonth)
    case None => None
    case Some(m) => Some(CodeForMonths(m))
  }

  /** GetConsoleColor: the three named codes get their colour, every other
      string (DEFAULT among them) gets white. */
  function ConsoleColorOf(code: string): (c: ConsoleColor)
    ensures c == Red <==> code == CodeRed
    ensures c == Yellow <==> code == CodeYellow
    ensures c == Green <==> code == CodeGreen
    ensures c == White <==> code !in {CodeRed, CodeYellow, CodeGreen}
  {
    if code == CodeRed then Red
    else if code == CodeYellow then Yellow
    else if code == CodeGreen then Green
    else White
  }

  /** The colour a row is printed in, as a function of the purchase date and
      the clock: red in the last three months (and the month itself), yellow
      from four to six months before, green more than two years before, white
      otherwise and after the end of life. */
  lemma RowColorBuckets(asset: Asset, nowYear: int, nowMonth: int)
    requires asset.purchaseDate.year + LifetimeYears <= MaxYear
    ensures var m := (asset.purchaseDate.year + LifetimeYears - nowYear) * 12
                     + asset.purchaseDate.month - nowMonth;
            var c := ConsoleColorOf(ColorCode(asset, nowYear, nowMonth).value);
            && (c == Red <==> 0 <= m <= 3)
            && (c == Yellow <==> 4 <= m <= 6)
            && (c == Green <==> 24 < m)
            && (c == White <==> m < 0 || 7 <= m <= 24)
  {
  }
}
