/** ReportServiceImpl: the reporting window a period keyword names, and
    the four read-only reports built on the sale queries and the material
    store. */
module ReportService {
  import opened Nullable
  import opened Failures
  import opened JavaText
  import opened Entities
  import MaterialService
  import SaleService
  import SaleRepository

  /** Timestamps count seconds. */
  const Day: int := 86400

  /** The readings of LocalDateTime.now() and the calendar starts derived
      from it: midnight of the current date, and the same time one month
      and one year back. Two days and one week back are plain differences. */
  datatype Clock = Clock(now: int, startOfToday: int, monthAgo: int, yearAgo: int) {
    /** What the calendar guarantees: midnight falls within the last day, a
        month is 28 to 31 days and a year 365 or 366. */
    predicate Valid() {
      && now - Day < startOfToday <= now
      && now - 31 * Day <= monthAgo <= now - 28 * Day
      && now - 366 * Day <= yearAgo <= now - 365 * Day
    }
  }

  /** The period keywords getDateRangeForPeriod accepts, lower-cased. */
  predicate IsPeriod(p: string) {
    p == "today" || p == "2days" || p == "week" || p == "month" || p == "year"
  }

  /** getDateRangeForPeriod: the window from the period's start up to now,
      for the keyword matched case-insensitively; "Invalid period" for
      anything else. */
  function DateRange(c: Clock, period: string): (r: Result<(int, int)>)
    ensures r.Ok? <==> IsPeriod(Lower(period))
    ensures r.Err? ==> r.error == InvalidPeriod
    ensures r.Ok? ==> r.value.1 == c.now
    ensures r.Ok? && c.Valid() ==> r.value.0 <= r.value.1
  {
    var p := Lower(period);
    if p == "today" then Ok((c.startOfToday, c.now))
    else if p == "2days" then Ok((c.now - 2 * Day, c.now))
    else if p == "week" then Ok((c.now - 7 * Day, c.now))
    else if p == "month" then Ok((c.monthAgo, c.now))
    else if p == "year" then Ok((c.yearAgo, c.now))
    else Err(InvalidPeriod)
  }

  /** How far back each window reaches. */
  lemma WindowLengths(c: Clock, period: string)
    requires c.Valid() && DateRange(c, period).Ok?
    ensures var (start, end) := DateRange(c, period).value;
            && (Lower(period) == "today" ==> end - start < Day)
            && (Lower(period) == "2days" ==> end - start == 2 * Day)
            && (Lower(period) == "week" ==> end - start == 7 * Day)
            && (Lower(period) == "month" ==> 28 * Day <= end - start <= 31 * Day)
            && (Lower(period) == "year" ==> 365 * Day <= end - start <= 366 * Day)
  {
  }

  /** Upper-case keywords name the same window. */
  lemma UpperCasePeriods(c: Clock)
    ensures DateRange(c, "TODAY") == DateRange(c, "today")
    ensures DateRange(c, "Week") == DateRange(c, "week")
    ensures DateRange(c, "YEAR") == DateRange(c, "year")
  {
    assert Lower("TODAY") == "today";
    assert Lower("Week") == "week";
    assert Lower("YEAR") == "year";
  }

  /** The window does not depend on letter case. */
  lemma PeriodIgnoresCase(c: Clock, period: string)
    ensures DateRange(c, period) == DateRange(c, Lower(period))
  {
    LowerIdempotent(period);
  }

  /** getTotalProfit: the profit sum over the period's window. */
  function GetTotalProfit(sales: seq<Sale>, c: Clock, period: string): (r: Result<real>)
    ensures r.Ok? <==> IsPeriod(Lower(period))
    ensures r.Err? ==> r.error == InvalidPeriod
    ensures r.Ok? ==> r.value == SaleRepository.TotalProfit(sales, DateRange(c, period).value.0, c.now)
  {
    match DateRange(c, period)
    case Err(e) => Err(e)
    case Ok((start, end)) => Ok(SaleRepository.TotalProfit(sales, start, end))
  }

  /** The map getSalesSummary returns. */
  datatype SalesSummary = SalesSummary(
    period: string,
    startDate: int,
    endDate: int,
    totalProfit: real,
    totalRevenue: real,
    totalCost: real)

  /** getSalesSummary: the period as given, the window, profit and
      revenue over it, and their difference as the cost. */
  function GetSalesSummary(sales: seq<Sale>, c: Clock, period: string): (r: Result<SalesSummary>)
    ensures r.Ok? <==> IsPeriod(Lower(period))
    ensures r.Err? ==> r.error == InvalidPeriod
    ensures r.Ok? ==>
              var w := DateRange(c, period).value;
              && r.value.period == period
              && r.value.startDate == w.0 && r.value.endDate == w.1
              && r.value.totalProfit == SaleRepository.TotalProfit(sales, w.0, w.1)
              && r.value.totalRevenue == SaleRepository.TotalRevenue(sales, w.0, w.1)
              && r.value.totalCost == r.value.totalRevenue - r.value.totalProfit
  {
    match DateRange(c, period)
    case Err(e) => Err(e)
    case Ok((start, end)) =>
      var profit := SaleRepository.TotalProfit(sales, start, end);
      var revenue := SaleRepository.TotalRevenue(sales, start, end);
      Ok(SalesSummary(period, start, end, profit, revenue, revenue - profit))
  }

  /** When every sale of the window was recorded by createSale, the
      summary's cost is the summed ingredient cost of those sales. */
  lemma SummaryCostIsIngredientCost(sales: seq<Sale>, c: Clock, period: string)
    requires GetSalesSummary(sales, c, period).Ok?
    requires var w := DateRange(c, period).value;
             forall i :: 0 <= i < |sales| && SaleRepository.InWindow(sales[i], w.0, w.1) ==>
               SaleService.ServiceComputed(sales[i])
    ensures var w := DateRange(c, period).value;
            GetSalesSummary(sales, c, period).value.totalCost == SaleRepository.TotalCost(sales, w.0, w.1)
  {
    var w := DateRange(c, period).value;
    SaleRepository.RevenueLessProfitIsCost(sales, w.0, w.1);
  }

  /** The row limit getTopSellingItems applies. */
  function EffectiveLimit(limit: int): (n: nat)
    ensures limit > 0 ==> n == limit
    ensures limit <= 0 ==> n == 10
  {
    if limit > 0 then limit else 10
  }

  /** getTopSellingItems: the first rows of the ranking, at most the
      effective limit of them. */
  function GetTopSellingItems(sales: seq<Sale>, items: map<int, FoodItem>, c: Clock, period: string, limit: int)
    : (r: Result<seq<SaleRepository.TopItem>>)
    ensures r.Ok? <==> IsPeriod(Lower(period))
    ensures r.Err? ==> r.error == InvalidPeriod
    ensures r.Ok? ==>
              var w := DateRange(c, period).value;
              var rows := SaleRepository.FindTopSellingItems(sales, w.0, w.1, items);
              && r.value <= rows
              && |r.value| == if |rows| < EffectiveLimit(limit) then |rows| else EffectiveLimit(limit)
  {
    match DateRange(c, period)
    case Err(e) => Err(e)
    case Ok((start, end)) =>
      var rows := SaleRepository.FindTopSellingItems(sales, start, end, items);
      Ok(rows[..if |rows| < EffectiveLimit(limit) then |rows| else EffectiveLimit(limit)])
  }

  /** The map getMaterialsStockReport returns. */
  datatype StockReport = StockReport(
    totalMaterials: nat,
    lowStockCount: nat,
    materials: map<int, Material>,
    lowStockMaterials: map<int, Material>,
    lowStockThreshold: real)

  /** getMaterialsStockReport: every material, those strictly below the
      threshold (10 when none is given), their counts, and the threshold
      that was used. */
  function GetMaterialsStockReport(s: MaterialService.Store, threshold: Option<real>): (r: StockReport)
    ensures r.lowStockThreshold == threshold.GetOr(10.0)
    ensures r.materials == s.rows && r.totalMaterials == |s.rows|
    ensures r.lowStockCount == |r.lowStockMaterials|
    ensures forall k :: k in r.lowStockMaterials <==> k in s.rows && s.rows[k].quantity < r.lowStockThreshold
    ensures forall k :: k in r.lowStockMaterials ==> r.lowStockMaterials[k] == s.rows[k]
    ensures r.lowStockCount <= r.totalMaterials
  {
    var t := threshold.GetOr(10.0);
    var low := MaterialService.GetLowStockMaterials(s, t);
    assert low.Keys <= s.rows.Keys;
    SubsetSize(low.Keys, s.rows.Keys);
    StockReport(|s.rows|, |low|, s.rows, low, t)
  }

  lemma SubsetSize(a: set<int>, b: set<int>)
    requires a <= b
    ensures |a| <= |b|
  {
    assert b == a + (b - a);
  }

  /** The stock report of ReportServiceImplTest: two materials, one below
      the default threshold. */
  lemma StockReportExample()
    ensures var flour := Material(Some(1), "Flour", "kg", 50.0, 100.0, 0);
            var sugar := Material(Some(2), "Sugar", "kg", 60.0, 5.0, 0);
            var r := GetMaterialsStockReport(MaterialService.Store(map[1 := flour, 2 := sugar], 3), None);
            r.totalMaterials == 2 && r.lowStockCount == 1 && r.lowStockThreshold == 10.0
  {
    var flour := Material(Some(1), "Flour", "kg", 50.0, 100.0, 0);
    var sugar := Material(Some(2), "Sugar", "kg", 60.0, 5.0, 0);
    var s := MaterialService.Store(map[1 := flour, 2 := sugar], 3);
    var r := GetMaterialsStockReport(s, None);
    assert r.lowStockMaterials.Keys == {2};
    assert s.rows.Keys == {1, 2};
  }
}
