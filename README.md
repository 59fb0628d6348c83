# NatureGrain: a verified model of the shop's order, cart and analytics rules

NatureGrain is an online shop for grains and natural foods. Its Spring back end stores orders, order lines and users and serves an administrators' analytics dashboard. Its React front end holds the cart, the checkout, search, the registration and contact forms and the admin lists.

This project models the parts of the shop that compute something, and proves what they promise. Every function over orders takes the order list, "today" (an epoch day) and "now" (epoch milliseconds) as parameters. Time stamps are local wall-clock milliseconds, so the server's time zone has already been applied.

- **Analytics reports.** These cover `AnalyticsController`, `AdvancedAnalyticsController`, `DashboardController` and the native queries of `OrderDetailRepository`:
  - sales, revenue and order series by day, week or month;
  - user growth, customer retention and customer figures;
  - product performance and order-status distribution;
  - RFM segmentation, the conversion funnel, the monthly cohort matrix and quarterly trends;
  - the day-by-hour heatmap, daily completion rates and customer lifetime value;
  - cross-sell pairs, and the dashboard's growth percentages, chart and category breakdown.

  Each report is a function over the order rows. A loop in the source is a method whose `ensures` ties its result to that function, and lemmas prove what the report promises: totals add up, groups are disjoint and cover their input, thresholds classify as stated, and the sort order is as given.
- **Orders.** This part covers the order entity's line subtotal, `OrderServiceImpl` and `OrderController`:
  - placing an order accumulates its total;
  - order lines are relinked to their products;
  - a status update changes only that order;
  - cancelling is allowed only from PENDING;
  - the list has its sort options and its status-to-activity mapping.

  The order store is a class whose methods update it in place.
- **Cart and checkout.** `CartContext` is a class whose methods add, merge, update, remove and clear lines. The cart page and the checkout page compute the shipping fee, the totals and the order payload.
- **Images.** This covers Cloudinary public-id extraction in the controller, the service and the front end, file extensions, URL building, the failed-URL memory and the cache buster.
- **Front-end utilities.** This covers:
  - the caching fetch hook;
  - dataset down-sampling, statistics, CSV export, paging and filtering for charts;
  - the pagination control's page list;
  - the "time ago" labels.
- **Forms and lists.** This covers validation of the registration and contact forms, the search page's filter, sort and paging pipeline, and the admin user and blog lists.

Shared modules hold the entities (`Entities`), calendar arithmetic (`Calendar`), insertion-ordered grouping (`Grouping`), paging (`Listing`) and generic sequence and string lemmas (`Seqs`, `Strings`).

Where the source looks wrong, the reports and pages follow the code as written. A corrected member beside each one states and proves the evidently intended rule; the findings section lists them.

## Model

| member | source | states |
|---|---|---|
| Entities.SetSubTotal | BackEnd/src/main/java/com/naturegrain/entity/OrderDetail.java:52-54 | setting the stored column changes only that column and leaves the computed subtotal as it was |
| Entities.SubTotalIndependent | BackEnd/src/main/java/com/naturegrain/entity/OrderDetail.java:48-50 | two lines with the same price and quantity have the same subtotal, whatever their stored column or links |
| Entities.SubTotalZero | BackEnd/src/main/java/com/naturegrain/entity/OrderDetail.java:48-50 | a line with zero price or zero quantity has subtotal 0 |
| Entities.FindByCreateAtAfter | BackEnd/src/main/java/com/naturegrain/repository/OrderRepository.java:23 | exactly the orders stamped strictly after the instant, in their original order; unstamped orders never match |
| Entities.FindByCreateAtBetween | BackEnd/src/main/java/com/naturegrain/repository/OrderRepository.java:26 | exactly the orders stamped within [lo, hi], both ends included, in their original order |
| Entities.OrdersOf | BackEnd/src/main/java/com/naturegrain/controller/AnalyticsController.java:163-165 | a user's group holds exactly the orders linked to that user |
| Entities.CustomerIdsBound | BackEnd/src/main/java/com/naturegrain/controller/AdvancedAnalyticsController.java:413-417 | the number of distinct customers among some orders is at most the number of orders |
| Entities.FindUser | BackEnd/src/main/java/com/naturegrain/controller/AdvancedAnalyticsController.java:303 | a found user is in the list and has the id; nothing is found exactly when no user has the id |
| Entities.CustomerKeys | BackEnd/src/main/java/com/naturegrain/controller/AnalyticsController.java:163-167 | the grouping's keys are exactly the ids of users that placed at least one order |
| Entities.CustomerKeysDistinct | BackEnd/src/main/java/com/naturegrain/controller/AdvancedAnalyticsController.java:291-293 | `groupingBy` lists each user id once |
| Calendar.HourOf | BackEnd/src/main/java/com/naturegrain/controller/AdvancedAnalyticsController.java:498 | `Calendar.HOUR_OF_DAY` lies in 0..23 |
| Calendar.DayOfMonotone | BackEnd/src/main/java/com/naturegrain/controller/AnalyticsController.java:127 | a later instant never falls on an earlier local date |
| Calendar.WeekdayFromSunday | BackEnd/src/main/java/com/naturegrain/controller/AdvancedAnalyticsController.java:497 | `DAY_OF_WEEK - 1` lies in 0..6 with 0 on Sunday; 1970-01-01 was a Thursday |
| Calendar.IsoWeekday | BackEnd/src/main/java/com/naturegrain/controller/AnalyticsController.java:567 | `getDayOfWeek().getValue()` lies in 1..7, Monday 1 and Sunday 7, agreeing with the Sunday-based count modulo 7 |
| Calendar.WeekStart | BackEnd/src/main/java/com/naturegrain/controller/AnalyticsController.java:566-567 | the week start is a Monday at most six days before the date |
| Calendar.WeekStartOfWeek | BackEnd/src/main/java/com/naturegrain/controller/AnalyticsController.java:566-567 | every day from a Monday to the following Sunday has that Monday as its week start |
| Calendar.WeekStartExample | BackEnd/src/main/java/com/naturegrain/controller/AnalyticsController.java:566-567 | a Wednesday, 2024-03-13, is bucketed under Monday 2024-03-11 |
| Calendar.CivilFromDaysExample | BackEnd/src/main/java/com/naturegrain/controller/AnalyticsController.java:559 | the day number of 2024-03-13 reads back as that date |
| Calendar.FormatYearMonth | BackEnd/src/main/java/com/naturegrain/controller/AdvancedAnalyticsController.java:226 | "yyyy-MM" renders seven characters, four year digits, a dash and two month digits |
| Calendar.FormatYearMonthParts | BackEnd/src/main/java/com/naturegrain/controller/AdvancedAnalyticsController.java:226 | the year and month can be read back from the digits of the rendering |
| Calendar.FormatYearMonthOrder | BackEnd/src/main/java/com/naturegrain/controller/AdvancedAnalyticsController.java:231 | ordering "yyyy-MM" keys as strings is ordering the months chronologically |
| Calendar.FormatYearMonthInjective | BackEnd/src/main/java/com/naturegrain/controller/AdvancedAnalyticsController.java:226 | two months share a key only when they are the same month |
| Grouping.TotalsMapSpec | BackEnd/src/main/java/com/naturegrain/controller/AnalyticsController.java:578-580 | the getOrDefault-and-add loop leaves exactly the keys seen, each mapped to the sum over its group |
| Grouping.CountsMapSpec | BackEnd/src/main/java/com/naturegrain/controller/AnalyticsController.java:581-582 | the getOrDefault-plus-one loop leaves a tally: each key seen mapped to the number of its elements |
| Grouping.AccumulateByKey | BackEnd/src/main/java/com/naturegrain/controller/AnalyticsController.java:552-583 | after the loop the insertion order of the keys is their first-seen order, every key's total is its group's sum and its count is its group's positive size |
| SalesTrends.TrendTimeframe | BackEnd/src/main/java/com/naturegrain/controller/AnalyticsController.java:68-79 | "weekly" selects weeks, "monthly" months, and any other value days |
| SalesTrends.ReportTimeframe | BackEnd/src/main/java/com/naturegrain/controller/AnalyticsController.java:829-835 | "week" selects weeks, "month" months, and any other value days (the same choice is made at lines 958-964) |
| SalesTrends.WeeklyPeriods | BackEnd/src/main/java/com/naturegrain/controller/AnalyticsController.java:564-568 | an order's weekly key is the Monday of its week, so two orders share a key exactly when they fall in the same Monday-to-Sunday week; an order on Wednesday 2024-03-13 is keyed 2024-03-11 |
| SalesTrends.TrendSeriesTotals | BackEnd/src/main/java/com/naturegrain/controller/AnalyticsController.java:586-596 | the series covers every order once: its sales add up to the orders' total, its counts to their number, no period is empty, each average is sales over count truncated, and the periods are exactly those met |
| SalesTrends.TrendSeriesPointwise | BackEnd/src/main/java/com/naturegrain/controller/AnalyticsController.java:588-596 | the points built from the two accumulated maps, in key order, are the per-period series |
| SalesTrends.TrendPoints | BackEnd/src/main/java/com/naturegrain/controller/AnalyticsController.java:586-605 | the pass over the keys yields one point per period with its sales, count and truncated average, and the running totals equal the sums over the points |
| SalesTrends.AggregateOrdersByTimePeriod | BackEnd/src/main/java/com/naturegrain/controller/AnalyticsController.java:550-615 | fails exactly when some order has no date; otherwise echoes the requested timeframe text, the per-period series in first-seen order, total sales equal to the orders' revenue, total orders equal to their number, and the average as that exact ratio (0 with no orders) |
| SalesTrends.GetSalesTrends | BackEnd/src/main/java/com/naturegrain/controller/AnalyticsController.java:60-101 | the orders created after the window start (timespan days, weeks or months before today) aggregated by the chosen timeframe, with totals over that window |
| SalesTrends.ReportRange | BackEnd/src/main/java/com/naturegrain/controller/AnalyticsController.java:810-816 | both dates given: that range; otherwise the timespan days up to today |
| SalesTrends.OrdersOnDays | BackEnd/src/main/java/com/naturegrain/controller/AnalyticsController.java:818-825 | an order is kept exactly when it has a date whose day lies in the range, both ends included |
| SalesTrends.RevenueSeriesTotal | BackEnd/src/main/java/com/naturegrain/controller/AnalyticsController.java:837-857 | the points' revenues add up to the reported total, with one point per period met |
| SalesTrends.RevenueSeriesPointwise | BackEnd/src/main/java/com/naturegrain/controller/AnalyticsController.java:846-853 | the points built from the accumulated map, in entry order, are the revenue series |
| SalesTrends.RevenuePoints | BackEnd/src/main/java/com/naturegrain/controller/AnalyticsController.java:847-853 | one point per map key, in key order, carrying that key's revenue |
| SalesTrends.GetRevenue | BackEnd/src/main/java/com/naturegrain/controller/AnalyticsController.java:798-865 | the orders dated in the range, their revenue per period in first-seen order, and their total revenue, echoing timeframe and timespan |
| SalesTrends.OrderSeriesTotal | BackEnd/src/main/java/com/naturegrain/controller/AnalyticsController.java:969-995 | the series counts only dated orders while the total counts all orders read: the counts add up to the number of dated orders, which equals the total exactly when every order is dated |
| SalesTrends.OrderSeriesPointwise | BackEnd/src/main/java/com/naturegrain/controller/AnalyticsController.java:982-989 | the points built from the two maps, in key order, are the per-period order series |
| SalesTrends.OrderPoints | BackEnd/src/main/java/com/naturegrain/controller/AnalyticsController.java:982-989 | one point per key, in key order, with that key's order count and revenue |
| SalesTrends.GetOrders | BackEnd/src/main/java/com/naturegrain/controller/AnalyticsController.java:936-1002 | the orders created from the start of the first day up to the start of the day after the last (or all orders), counted and summed per period over the dated ones, with totals over all of them |
| UserGrowth.NewUsersOn | BackEnd/src/main/java/com/naturegrain/controller/AnalyticsController.java:124-132 | a day's registrations number at most the users, and are zero exactly when no user registered that day |
| UserGrowth.Skeleton | BackEnd/src/main/java/com/naturegrain/controller/AnalyticsController.java:118-121 | the seeded dates are the days consecutive days from the start date |
| UserGrowth.GrowthDaysShape | BackEnd/src/main/java/com/naturegrain/controller/AnalyticsController.java:114-134 | the listed dates are consecutive days from today minus days, one per requested day, plus a trailing today exactly when somebody registered today (today is not seeded) |
| UserGrowth.GrowthDaysRange | BackEnd/src/main/java/com/naturegrain/controller/AnalyticsController.java:118-132 | every listed date lies between today minus days and today, and every date of that range before today is listed |
| UserGrowth.GrowthTotalsMonotone | BackEnd/src/main/java/com/naturegrain/controller/AnalyticsController.java:143-152 | the running total never decreases along the series |
| UserGrowth.GrowthFinalTotal | BackEnd/src/main/java/com/naturegrain/controller/AnalyticsController.java:138-152 | the last running total is the number of users registered up to and including today |
| UserGrowth.SeedDays | BackEnd/src/main/java/com/naturegrain/controller/AnalyticsController.java:117-121 | the seeding loop lists the requested dates, each with count zero |
| UserGrowth.CountRegistrations | BackEnd/src/main/java/com/naturegrain/controller/AnalyticsController.java:123-134 | after the counting loop the keys are the listed dates, each holding the number of users registered that day |
| UserGrowth.Cumulate | BackEnd/src/main/java/com/naturegrain/controller/AnalyticsController.java:137-152 | one point per listed date with its registrations and the running total from the base |
| UserGrowth.GetUserGrowth | BackEnd/src/main/java/com/naturegrain/controller/AnalyticsController.java:105-155 | one point per listed date, with that day's registrations and the total of users registered before the start date plus those registered up to that date |
| CustomerRetention.CustomerHasOrders | BackEnd/src/main/java/com/naturegrain/controller/AnalyticsController.java:163-165 | every customer of the grouping has at least one order |
| CustomerRetention.BucketKey | BackEnd/src/main/java/com/naturegrain/controller/AnalyticsController.java:185 | counts above 5 go to "5+", any other count to its decimal rendering |
| CustomerRetention.BucketKeysOfCustomers | BackEnd/src/main/java/com/naturegrain/controller/AnalyticsController.java:185 | a customer's bucket is one of "1" to "5" or "5+" |
| CustomerRetention.GroupSizes | BackEnd/src/main/java/com/naturegrain/controller/AnalyticsController.java:163-175 | one group size per customer, each that customer's number of orders, at least 1 |
| CustomerRetention.TallyCounts | BackEnd/src/main/java/com/naturegrain/controller/AnalyticsController.java:174-182 | the loop's repeat and one-time counts are the numbers of customers with more than one order and with one order |
| CustomerRetention.TallyBuckets | BackEnd/src/main/java/com/naturegrain/controller/AnalyticsController.java:184-186 | each bucket holds the number of customers whose count falls in it, and only buckets that occur are present |
| CustomerRetention.TallyCustomers | BackEnd/src/main/java/com/naturegrain/controller/AnalyticsController.java:174-187 | the loop over the groups computes the repeat and one-time counts and the bucket counts |
| CustomerRetention.GetCustomerRetention | BackEnd/src/main/java/com/naturegrain/controller/AnalyticsController.java:159-205 | totals, repeat and one-time customers, the retention rate as a share of customers, the average over all orders, and the purchase-frequency buckets |
| CustomerRetention.RetentionPartition | BackEnd/src/main/java/com/naturegrain/controller/AnalyticsController.java:167-187 | repeat plus one-time customers make the total, the bucket counts add up to it too, and every bucket is "1" to "5" or "5+" |
| CustomerRetention.NewCustomers | BackEnd/src/main/java/com/naturegrain/controller/AnalyticsController.java:1111-1118 | the new customers are exactly the users registered on a day within the inclusive range |
| CustomerRetention.DailyNewCustomers | BackEnd/src/main/java/com/naturegrain/controller/AnalyticsController.java:1133-1152 | the daily series has `timespan` points from the start day, each counting that day's new customers |
| CustomerRetention.GetCustomers | BackEnd/src/main/java/com/naturegrain/controller/AnalyticsController.java:1090-1162 | new customers in the range, all users as the total, the repeat customers among those with orders, the retention rate over all users, and the daily series |
| CustomerRetention.DailySum | BackEnd/src/main/java/com/naturegrain/controller/AnalyticsController.java:1134-1144 | the daily points of a stretch inside the range add up to the registrations on its days |
| CustomerRetention.DefaultSeriesMissesToday | BackEnd/src/main/java/com/naturegrain/controller/AnalyticsController.java:1105-1107 | without explicit dates the range includes today but the daily series stops at yesterday: its counts fall short of newCustomers by today's registrations |
| ProductAnalytics.NamedLines | BackEnd/src/main/java/com/naturegrain/controller/AnalyticsController.java:213-214 | exactly the lines with a non-null, non-empty name take part in grouping |
| ProductAnalytics.LinesNamed | BackEnd/src/main/java/com/naturegrain/controller/AnalyticsController.java:213-215 | a product's group holds exactly the named lines carrying that name |
| ProductAnalytics.ToInt32 | BackEnd/src/main/java/com/naturegrain/controller/AnalyticsController.java:243 | the value lies in Java's int range and differs from the input by a multiple of 2^32 |
| ProductAnalytics.JavaHash | BackEnd/src/main/java/com/naturegrain/controller/AnalyticsController.java:243 | String.hashCode always lies in the 32-bit int range |
| ProductAnalytics.JavaHashPolynomial | BackEnd/src/main/java/com/naturegrain/controller/AnalyticsController.java:243 | the wrapped hash equals the polynomial Σ s[i]·31^(n−1−i) up to a multiple of 2^32 |
| ProductAnalytics.JavaHashExample | BackEnd/src/main/java/com/naturegrain/controller/AnalyticsController.java:243 | "ab" hashes to 3105 and "" to 0 |
| ProductAnalytics.GetProductPerformance | BackEnd/src/main/java/com/naturegrain/controller/AnalyticsController.java:209-263 | one row per distinct non-empty line name, each the figures of that name's group, sorted by revenue, highest first |
| ProductAnalytics.ProductPerformanceTotals | BackEnd/src/main/java/com/naturegrain/controller/AnalyticsController.java:224-227 | the rows' revenues add up to Σ price·quantity and their quantities to Σ quantity over all named lines |
| ProductAnalytics.PerformanceRowGroup | BackEnd/src/main/java/com/naturegrain/controller/AnalyticsController.java:220-255 | every row is the performance of the group of a named line that exists |
| ProductAnalytics.PerformanceRowCategory | BackEnd/src/main/java/com/naturegrain/controller/AnalyticsController.java:246-250 | a product none of whose lines has a categorised product is reported "Uncategorized" |
| ProductAnalytics.PerformanceRowCustomers | BackEnd/src/main/java/com/naturegrain/controller/AnalyticsController.java:230-234 | a row's distinct customer count is at most its number of lines |
| ProductAnalytics.GetOrderStatusDistribution | BackEnd/src/main/java/com/naturegrain/controller/AnalyticsController.java:267-288 | one row per distinct status key (null read as "UNKNOWN"), each with its positive order count and its share count·100/n of all orders |
| ProductAnalytics.StatusRowsCover | BackEnd/src/main/java/com/naturegrain/controller/AnalyticsController.java:271-285 | a status has a row exactly when some order carries it, and no status has two rows |
| ProductAnalytics.StatusCountsTotal | BackEnd/src/main/java/com/naturegrain/controller/AnalyticsController.java:271-275 | every order is counted under exactly one status: the counts add up to the number of orders |
| ProductAnalytics.NullStatusIsUnknown | BackEnd/src/main/java/com/naturegrain/controller/AnalyticsController.java:273 | an order without a status makes "UNKNOWN" appear among the rows |
| ProductAnalytics.StatStep | BackEnd/src/main/java/com/naturegrain/controller/AnalyticsController.java:1046-1061 | reading one more named line changes only the entry of its own name |
| ProductAnalytics.ProductStatsKeys | BackEnd/src/main/java/com/naturegrain/controller/AnalyticsController.java:1043-1063 | the map's keys are the distinct non-empty line names, met in first-seen order |
| ProductAnalytics.ProductStatsValues | BackEnd/src/main/java/com/naturegrain/controller/AnalyticsController.java:1047-1061 | each entry holds its name's summed units and subtotals and the price and category of its last line |
| ProductAnalytics.CollectProductStats | BackEnd/src/main/java/com/naturegrain/controller/AnalyticsController.java:1043-1063 | after the loop, the names are the distinct non-empty line names and each entry holds its name's sums and last price and category |
| ProductAnalytics.ProductLines | BackEnd/src/main/java/com/naturegrain/controller/AnalyticsController.java:1019-1040 | without both dates every line is read; with both, exactly the lines whose order is among those stamped from the first day's start to the start of the day after the last |
| ProductAnalytics.RankedProducts | BackEnd/src/main/java/com/naturegrain/controller/AnalyticsController.java:1066-1067 | the entries are sorted by units sold, highest first, and are a permutation of the per-name entries |
| ProductAnalytics.GetProducts | BackEnd/src/main/java/com/naturegrain/controller/AnalyticsController.java:1014-1087 | a negative limit fails (the handler answers with mock data); otherwise the ranked entries of the selected lines cut at the limit, with the limit echoed |
| ProductAnalytics.StatsInOrder | BackEnd/src/main/java/com/naturegrain/controller/AnalyticsController.java:1066 | the map's values listed in their names' first-seen order |
| ProductAnalytics.ProductsOf | BackEnd/src/main/java/com/naturegrain/controller/AnalyticsController.java:1066-1073 | fails exactly for a negative limit; otherwise the ranked entries cut at the limit |
| ProductAnalytics.TopProductsDominate | BackEnd/src/main/java/com/naturegrain/controller/AnalyticsController.java:1066-1069 | an entry cut off sold no more than any entry kept, and an entry is cut off only when the limit is below the number of products |
| ProductAnalytics.TopProductsTotals | BackEnd/src/main/java/com/naturegrain/controller/AnalyticsController.java:1045-1069 | with a limit covering every product, units and revenue add up to those of all named lines |
| ProductAnalytics.ProductStatFromLastLine | BackEnd/src/main/java/com/naturegrain/controller/AnalyticsController.java:1053-1059 | a product's price and category are those of the last of its lines read |
| TimeAgo.RenderParts | BackEnd/src/main/java/com/naturegrain/dto/response/ActivityResponse.java:56-61 | a counted label is the count's decimal digits followed by a space and the unit words |
| TimeAgo.RenderInjective | BackEnd/src/main/java/com/naturegrain/controller/AnalyticsController.java:762-771 | different counts or units never render to the same label |
| TimeAgo.AnalyticsTimeAgo | BackEnd/src/main/java/com/naturegrain/controller/AnalyticsController.java:758-773 | under a minute (including any future timestamp) is "just now"; otherwise the label's unit is the largest of minutes, hours, days (below 30 days) and 30-day months that fits, and its count is the whole number of that unit in the difference |
| TimeAgo.ActivityTimeAgo | BackEnd/src/main/java/com/naturegrain/dto/response/ActivityResponse.java:47-48 | a record without a date gets no label, and one with a date always gets one |
| TimeAgo.ActivityTimeAgoText | BackEnd/src/main/java/com/naturegrain/dto/response/ActivityResponse.java:47-64 | the label text is "" without a date and the rendered label otherwise |
| TimeAgo.NestedQuotients | BackEnd/src/main/java/com/naturegrain/dto/response/ActivityResponse.java:50-54 | for a non-negative difference, dividing down by 1000, 60, 60 and 24 in turn is dividing once by a minute, an hour or a day |
| TimeAgo.ActivityTimeAgoUnits | BackEnd/src/main/java/com/naturegrain/dto/response/ActivityResponse.java:56-64 | the record's label is whole days from one day on with no upper bound, else whole hours, else whole minutes, else "just now", which covers every future timestamp |
| TimeAgo.TimeAgoVersionsAgree | BackEnd/src/main/java/com/naturegrain/controller/AnalyticsController.java:758-773 | the controller's and the record's labels agree below 30 days; from 30 days on the controller counts months while the record keeps counting days |
| TimeAgo.FortyFiveDaysExample | BackEnd/src/main/java/com/naturegrain/dto/response/ActivityResponse.java:56-57 | 45 days ago reads "45 days" on the activity record but "1 month" in the controller's feed |
| TimeAgo.ValueOf | BackEnd/src/main/java/com/naturegrain/entity/ActivityType.java:3-21 | looking up a constant by identifier finds only a constant with that identifier |
| TimeAgo.NameRoundTrip | BackEnd/src/main/java/com/naturegrain/entity/ActivityType.java:3-21 | every activity type is found again from its identifier, so the identifiers are distinct |
| TimeAgo.MakeActivityResponse | BackEnd/src/main/java/com/naturegrain/dto/response/ActivityResponse.java:30-45 | the record stores the type's identifier (which names the type again) and its caption, keeps the date, and computes the label from the date |
| Dashboard.PercentChange | BackEnd/src/main/java/com/naturegrain/controller/DashboardController.java:76-78 | with a positive previous value the result is (cur − last)·100/last truncated toward zero (sign and bracketing stated); a zero previous value gives 0 |
| Dashboard.PercentChangeExamples | BackEnd/src/main/java/com/naturegrain/controller/DashboardController.java:77 | +25 %, −25 %, a −0.5 % change truncated to 0, and 0 when last month had nothing |
| Dashboard.GetDashboardStats | BackEnd/src/main/java/com/naturegrain/controller/DashboardController.java:49-90 | the counts, total revenue over all orders, and the revenue and order-count changes of this month's window against last month's |
| Dashboard.MonthBoundaryOrder | BackEnd/src/main/java/com/naturegrain/controller/DashboardController.java:60-70 | an order stamped exactly at midnight of the month's first day counts for last month and not for this month |
| Dashboard.ChartDays | BackEnd/src/main/java/com/naturegrain/controller/DashboardController.java:135-146 | the chart days are start, start+1, …, today: one per requested day, none when days ≤ 0 |
| Dashboard.SeedChart | BackEnd/src/main/java/com/naturegrain/controller/DashboardController.java:142-146 | the zero-filled map holds exactly the days start … start+days−1, each mapped to 0 |
| Dashboard.AddOrders | BackEnd/src/main/java/com/naturegrain/controller/DashboardController.java:153-162 | after the loop each day in the range holds the sum of totalPrice of the orders dated that day; no other key appears |
| Dashboard.GetSalesChartData | BackEnd/src/main/java/com/naturegrain/controller/DashboardController.java:132-174 | one point per requested day, each the sum of the fetched orders dated that day (0 for a day without orders) |
| Dashboard.ChartAmountsTotal | BackEnd/src/main/java/com/naturegrain/controller/DashboardController.java:153-162 | the per-day amounts add up to the revenue of the fetched orders dated within the range |
| Dashboard.SalesChartTotal | BackEnd/src/main/java/com/naturegrain/controller/DashboardController.java:149-174 | the chart's amounts add up to the revenue of the orders fetched after the first day's midnight and dated in range |
| Dashboard.GetCategoryBreakdown | BackEnd/src/main/java/com/naturegrain/controller/DashboardController.java:179-199 | one row per distinct category name among products that have a category, in first-seen order, with its positive product count |
| Dashboard.CategoryBreakdownTotal | BackEnd/src/main/java/com/naturegrain/controller/DashboardController.java:183-188 | the counts add up to the number of products that have a category |
| SalesQueries.LinesBetween | BackEnd/src/main/java/com/naturegrain/repository/OrderDetailRepository.java:37-38 | a line takes part exactly when it has an order whose creation time lies between the two bounds, both ends included |
| SalesQueries.SalesByDateRange | BackEnd/src/main/java/com/naturegrain/repository/OrderDetailRepository.java:34-41 | one row per calendar day with sales in the range, ascending by day, each holding that day's summed quantity and revenue |
| SalesQueries.SalesByDateTotals | BackEnd/src/main/java/com/naturegrain/repository/OrderDetailRepository.java:34-41 | the daily quantities and revenues add up to those of all lines in the range |
| SalesQueries.SalesByDateDays | BackEnd/src/main/java/com/naturegrain/repository/OrderDetailRepository.java:34-41 | every listed day is the day of some line in the range |
| SalesQueries.CustomerLines | BackEnd/src/main/java/com/naturegrain/repository/OrderDetailRepository.java:46-48 | a line takes part exactly when its order exists and belongs to an existing user |
| SalesQueries.CustomerPurchaseFrequency | BackEnd/src/main/java/com/naturegrain/repository/OrderDetailRepository.java:44-51 | one row per customer with order lines, sorted by total spent descending, holding the distinct-order count and the sum of price times quantity |
| SalesQueries.CustomerFrequencyRow | BackEnd/src/main/java/com/naturegrain/repository/OrderDetailRepository.java:44 | a customer's order count counts distinct orders: at least one and at most their number of lines; the username is that of the user with the row's id |
| SalesQueries.CustomerFrequencyTotal | BackEnd/src/main/java/com/naturegrain/repository/OrderDetailRepository.java:45 | the customers' totals spent add up to the revenue of all joined lines |
| SalesQueries.HourAscTotalPreorder | BackEnd/src/main/java/com/naturegrain/repository/OrderDetailRepository.java:59 | ordering by hour of day, with the NULL hour of undated orders first, is a total preorder, so the sort is well defined |
| SalesQueries.LinesWithOrder | BackEnd/src/main/java/com/naturegrain/repository/OrderDetailRepository.java:56-57 | only lines whose order exists take part in the join |
| SalesQueries.SalesByHourOfDay | BackEnd/src/main/java/com/naturegrain/repository/OrderDetailRepository.java:53-60 | one row per hour of day with order lines (and one for undated orders), ascending by hour |
| SalesQueries.SalesByHourRow | BackEnd/src/main/java/com/naturegrain/repository/OrderDetailRepository.java:54 | listed hours lie in 0..23 and each hour has at least one distinct order |
| SalesQueries.SalesByHourTotal | BackEnd/src/main/java/com/naturegrain/repository/OrderDetailRepository.java:55 | the hours' revenues add up to that of all lines with an order |
| SalesQueries.CategorisedLines | BackEnd/src/main/java/com/naturegrain/repository/OrderDetailRepository.java:27-29 | a line takes part exactly when it has a product and that product a category |
| SalesQueries.SalesByCategory | BackEnd/src/main/java/com/naturegrain/repository/OrderDetailRepository.java:25-31 | one row per category name among the joined lines, holding that category's summed quantity and revenue |
| SalesQueries.SalesByCategoryTotals | BackEnd/src/main/java/com/naturegrain/repository/OrderDetailRepository.java:25-31 | lines without product or category are dropped; the category quantities add up to those of the remaining lines, and every row names the category of some line |
| SalesQueries.CategoryLinesBetween | BackEnd/src/main/java/com/naturegrain/repository/OrderDetailRepository.java:114-118 | a line takes part exactly when it has a product with a category and an order created within the range |
| SalesQueries.RevenueByCategory | BackEnd/src/main/java/com/naturegrain/repository/OrderDetailRepository.java:111-121 | one row per category in the range, sorted by revenue descending, with its revenue and distinct-order count |
| SalesQueries.RevenueByCategoryRow | BackEnd/src/main/java/com/naturegrain/repository/OrderDetailRepository.java:113 | each category counts at least one and at most its number of lines of distinct orders |
| SalesQueries.RevenueByCategoryTotal | BackEnd/src/main/java/com/naturegrain/repository/OrderDetailRepository.java:112 | the categories' revenues add up to the line total of the range |
| BasketAnalysis.RowKeysSound | BackEnd/src/main/java/com/naturegrain/repository/OrderDetailRepository.java:137-140 | every group key produced for a line comes from a line of the same order with a different, existing product |
| BasketAnalysis.RowKeysComplete | BackEnd/src/main/java/com/naturegrain/repository/OrderDetailRepository.java:137-140 | every line that joins with the given line contributes its group key |
| BasketAnalysis.PairKeysSound | BackEnd/src/main/java/com/naturegrain/repository/OrderDetailRepository.java:137-141 | every key listed over the self-join is the key of some joined pair of lines |
| BasketAnalysis.PairKeysComplete | BackEnd/src/main/java/com/naturegrain/repository/OrderDetailRepository.java:137-141 | every joined pair of lines has its key listed |
| BasketAnalysis.CrossSellGroups | BackEnd/src/main/java/com/naturegrain/repository/OrderDetailRepository.java:135-142 | the groups come ordered by frequency, descending; each row is the row of its own product pair and has at least one joined pair of lines; no pair is listed twice |
| BasketAnalysis.CrossSell | BackEnd/src/main/java/com/naturegrain/repository/OrderDetailRepository.java:135-144 | a negative `LIMIT :limit` is refused by the database (a failure exactly when limit < 0); otherwise the first min(limit, groups) groups of the frequency-descending list, still sorted |
| BasketAnalysis.CrossSellComplete | BackEnd/src/main/java/com/naturegrain/repository/OrderDetailRepository.java:137-141 | every pair of lines that joins has its group among the results before the limit |
| BasketAnalysis.PairFrequencySymmetric | BackEnd/src/main/java/com/naturegrain/repository/OrderDetailRepository.java:138 | the ordered pairs (A, B) and (B, A) are counted equally often |
| BasketAnalysis.NoSelfPairs | BackEnd/src/main/java/com/naturegrain/repository/OrderDetailRepository.java:138 | a group that occurs has two different product ids |
| BasketAnalysis.CrossSellRows | BackEnd/src/main/java/com/naturegrain/repository/OrderDetailRepository.java:135-144 | every returned row has frequency ≥ 1, equal to the number of joined line pairs of its group, and two different product ids |
| BasketAnalysis.BasketRows | BackEnd/src/main/java/com/naturegrain/controller/AdvancedAnalyticsController.java:152-166 | rows missing product1Id, product2Id or frequency are skipped; every other row is kept, with a missing name shown as "Unknown" |
| BasketAnalysis.BasketKeepsQueryRows | BackEnd/src/main/java/com/naturegrain/controller/AdvancedAnalyticsController.java:147-169 | on rows produced by the query nothing is skipped and no name is replaced |
| RfmAnalysis.RecencyLevel | BackEnd/src/main/java/com/naturegrain/controller/AdvancedAnalyticsController.java:87 | at most 30 days since the latest order is High, 31 to 90 Medium, more than 90 Low, each as an if-and-only-if |
| RfmAnalysis.FrequencyLevel | BackEnd/src/main/java/com/naturegrain/controller/AdvancedAnalyticsController.java:88 | four or more orders is High, two or three Medium, fewer Low |
| RfmAnalysis.MonetaryLevel | BackEnd/src/main/java/com/naturegrain/controller/AdvancedAnalyticsController.java:89 | 2,000,000 or more spent is High, 500,000 up to 2,000,000 Medium, less Low |
| RfmAnalysis.SegmentOf | BackEnd/src/main/java/com/naturegrain/controller/AdvancedAnalyticsController.java:92-105 | the first matching rule decides: VIP needs all three High; Loyal recent and frequent but not big-spending; Recent recent but not frequent; Big Spender frequent and big-spending but not recent; At Risk low recency and low frequency; Regular everything else — each segment characterised on its own |
| RfmAnalysis.SegmentNameInjective | BackEnd/src/main/java/com/naturegrain/controller/AdvancedAnalyticsController.java:94-104 | the six segment names are pairwise different, so counting by name counts by segment |
| RfmAnalysis.LatestStamp | BackEnd/src/main/java/com/naturegrain/controller/AdvancedAnalyticsController.java:73-80 | the head of the newest-first order list is an order date no other order of the user exceeds |
| RfmAnalysis.SegmentCounts | BackEnd/src/main/java/com/naturegrain/controller/AdvancedAnalyticsController.java:123-127 | the counts have a key for exactly the segments that occur, each mapped to the positive number of rows in that segment |
| RfmAnalysis.SegmentCountsTotal | BackEnd/src/main/java/com/naturegrain/controller/AdvancedAnalyticsController.java:123-127 | the segment counts add up to the number of customer rows |
| RfmAnalysis.RfmRowsSucceed | BackEnd/src/main/java/com/naturegrain/controller/AdvancedAnalyticsController.java:67-80 | the report fails exactly when an order of a listed user has no creation date (the date is dereferenced) |
| RfmAnalysis.CustomerRowPresent | BackEnd/src/main/java/com/naturegrain/controller/AdvancedAnalyticsController.java:67-71 | a user gets a row exactly when some order belongs to them; its row carries the user's id and at least one order |
| RfmAnalysis.RfmRowsOnePerCustomer | BackEnd/src/main/java/com/naturegrain/controller/AdvancedAnalyticsController.java:67-120 | one row per listed user with orders and none for anyone else |
| RfmAnalysis.RowFigures | BackEnd/src/main/java/com/naturegrain/controller/AdvancedAnalyticsController.java:77-84 | a row's frequency is the user's order count, its monetary value the sum of their order totals and its recency the days from the newest order to today |
| RfmAnalysis.RfmFailureSticks | BackEnd/src/main/java/com/naturegrain/controller/AdvancedAnalyticsController.java:67-80 | once a user's orders make the loop throw, the whole report fails |
| RfmAnalysis.AnalyzeRfm | BackEnd/src/main/java/com/naturegrain/controller/AdvancedAnalyticsController.java:56-131 | the loop yields the same rows as the per-user fold, fails exactly when it does, and reports the segment counts of its rows |
| FunnelAnalysis.UsersWithCompletedOrders | BackEnd/src/main/java/com/naturegrain/controller/AdvancedAnalyticsController.java:184-188 | the users with a "COMPLETED" order are among the users with any order |
| FunnelAnalysis.CompletedWithinOrdered | BackEnd/src/main/java/com/naturegrain/controller/AdvancedAnalyticsController.java:177-188 | the completed-order stage never counts more users than the ordering stage |
| FunnelAnalysis.Funnel | BackEnd/src/main/java/com/naturegrain/controller/AdvancedAnalyticsController.java:173-212 | three stages: registered users at 100 %, distinct ordering users and distinct users with a completed order at count·100/totalUsers (0 when no user is registered); stage 3 ≤ stage 2 |
| CohortAnalysis.MonthDifferenceOfKeys | BackEnd/src/main/java/com/naturegrain/controller/AdvancedAnalyticsController.java:585-593 | on "yyyy-MM" keys the difference is the number of months between them: 0 for the same month, non-negative exactly when the second key is not before the first in string order |
| CohortAnalysis.SortedMonths | BackEnd/src/main/java/com/naturegrain/controller/AdvancedAnalyticsController.java:221-232 | the registration months of users with a creation date, each once, in ascending order |
| CohortAnalysis.IdsBound | BackEnd/src/main/java/com/naturegrain/controller/AdvancedAnalyticsController.java:241-243 | a cohort's set of ids has at most as many members as the cohort |
| CohortAnalysis.ActiveUsers | BackEnd/src/main/java/com/naturegrain/controller/AdvancedAnalyticsController.java:259-267 | the active users of a month are distinct members of the cohort |
| CohortAnalysis.RetentionShape | BackEnd/src/main/java/com/naturegrain/controller/AdvancedAnalyticsController.java:253-278 | an "M" entry exists exactly for the listed months not before the cohort's month, and each count is at most the cohort size, so the rate is at most 100 |
| CohortAnalysis.ComputeRetention | BackEnd/src/main/java/com/naturegrain/controller/AdvancedAnalyticsController.java:250-278 | the inner loop builds the retention map `RetentionSpec` |
| CohortAnalysis.CohortRows | BackEnd/src/main/java/com/naturegrain/controller/AdvancedAnalyticsController.java:237-282 | one row per registration month, in the given order |
| CohortAnalysis.CohortRowsAt | BackEnd/src/main/java/com/naturegrain/controller/AdvancedAnalyticsController.java:237-282 | row k is the row of the k-th registration month |
| CohortAnalysis.CohortRowFor | BackEnd/src/main/java/com/naturegrain/controller/AdvancedAnalyticsController.java:238-281 | one pass of the outer loop builds the cohort's row: its month, its size and its retention entries |
| CohortAnalysis.AnalyzeCohorts | BackEnd/src/main/java/com/naturegrain/controller/AdvancedAnalyticsController.java:216-285 | one row per month in which somebody registered, in chronological order |
| CohortAnalysis.RowsForMonths | BackEnd/src/main/java/com/naturegrain/controller/AdvancedAnalyticsController.java:237-282 | the outer loop produces the rows of the sorted months, in order |
| CohortAnalysis.SortedMonthsAreKeys | BackEnd/src/main/java/com/naturegrain/controller/AdvancedAnalyticsController.java:230-232 | the sorted months are exactly the months in which a dated user registered |
| CohortAnalysis.CohortMembership | BackEnd/src/main/java/com/naturegrain/controller/AdvancedAnalyticsController.java:221-227 | a cohort holds exactly the users with a creation date in its month |
| CohortAnalysis.CohortNonEmpty | BackEnd/src/main/java/com/naturegrain/controller/AdvancedAnalyticsController.java:221-227 | the cohort of a month in which somebody registered is not empty |
| CohortAnalysis.CohortMembers | BackEnd/src/main/java/com/naturegrain/controller/AdvancedAnalyticsController.java:237-247 | every listed cohort is non-empty and holds exactly the dated users registered in its month |
| SeasonalTrends.QuarterKeyExample | BackEnd/src/main/java/com/naturegrain/controller/AdvancedAnalyticsController.java:398 | as written, January 2024 is keyed "2024-Q01" and May 2024 "2024-Q11", not the intended "2024-Q1" and "2024-Q2" |
| SeasonalTrends.QuarterKeyNumbers | BackEnd/src/main/java/com/naturegrain/controller/AdvancedAnalyticsController.java:398 | the intended key names quarter 1 to 4 for every month; the written key puts the zero-based index and then the digit 1 |
| SeasonalTrends.QuarterKeySameQuarter | BackEnd/src/main/java/com/naturegrain/controller/AdvancedAnalyticsController.java:395-399 | months of one quarter share a key and months of different quarters of a year do not, under both labellings |
| SeasonalTrends.QuarterSummary | BackEnd/src/main/java/com/naturegrain/controller/AdvancedAnalyticsController.java:405-428 | a quarter's row carries the label it is keyed by (the concatenated "2024-Q01" form); its revenue is the sum of totalPrice over the orders with that label, its order count is their number, its customers are the distinct user ids of those orders that have a user (never more than the orders), and its average is revenue over orders |
| SeasonalTrends.QuarterRevenue | BackEnd/src/main/java/com/naturegrain/controller/AdvancedAnalyticsController.java:407-409 | a quarter's revenue, summed over its own orders, is the sum over all orders of the totals labelled with that quarter |
| SeasonalTrends.QuarterCustomersAre | BackEnd/src/main/java/com/naturegrain/controller/AdvancedAnalyticsController.java:412-416 | the distinct non-null user ids of a quarter's orders are the users of the orders labelled with that quarter |
| SeasonalTrends.QuarterSummaries | BackEnd/src/main/java/com/naturegrain/controller/AdvancedAnalyticsController.java:396-431 | one summary per quarter label, built as the source concatenates it, that has orders in the window, and nothing else |
| SeasonalTrends.QuarterKeyAsWrittenOrder | BackEnd/src/main/java/com/naturegrain/controller/AdvancedAnalyticsController.java:398 | within a year the concatenated labels sort in quarter order, so sorting by label is still chronological |
| SeasonalTrends.SeasonalTrends | BackEnd/src/main/java/com/naturegrain/controller/AdvancedAnalyticsController.java:382-436 | the quarter summaries, labelled as the source labels them, of the orders from (today minus years) to the end of today, sorted by period label |
| SeasonalTrends.SeasonalOrdersTotal | BackEnd/src/main/java/com/naturegrain/controller/AdvancedAnalyticsController.java:404-412 | the quarters' order counts add up to the number of orders in the window |
| SeasonalTrends.SeasonalRowsPerQuarter | BackEnd/src/main/java/com/naturegrain/controller/AdvancedAnalyticsController.java:395-434 | every row summarises a quarter with orders in the window, and every such quarter has exactly one row |
| DayHourHeatmap.CellIndex | BackEnd/src/main/java/com/naturegrain/controller/AdvancedAnalyticsController.java:497-500 | every order's weekday (Sunday = 0) and hour select one of the 7 × 24 cells, so the increment never indexes outside the grid |
| DayHourHeatmap.HeatmapCells | BackEnd/src/main/java/com/naturegrain/controller/AdvancedAnalyticsController.java:505-519 | 168 cells in day-major order; cell k is day k/24 with its Vietnamese day name, hour k%24, and the count of stamped orders in that slot |
| DayHourHeatmap.CellSplit | BackEnd/src/main/java/com/naturegrain/controller/AdvancedAnalyticsController.java:509-515 | the flat position of row d, column h gives back d and h |
| DayHourHeatmap.CellIndexInjective | BackEnd/src/main/java/com/naturegrain/controller/AdvancedAnalyticsController.java:509-515 | two grid positions with the same flat index are the same position |
| DayHourHeatmap.FillGrid | BackEnd/src/main/java/com/naturegrain/controller/AdvancedAnalyticsController.java:489-502 | a fresh 7 × 24 grid whose cell [d][h] holds the number of stamped orders falling on weekday d at hour h |
| DayHourHeatmap.Heatmap | BackEnd/src/main/java/com/naturegrain/controller/AdvancedAnalyticsController.java:477-522 | the result is the 168-cell flattening of the grid filled from the orders stamped after midnight of today − days |
| DayHourHeatmap.HeatCountsTotal | BackEnd/src/main/java/com/naturegrain/controller/AdvancedAnalyticsController.java:491-502 | every stamped order is counted in exactly one cell: the cells add up to the number of stamped orders |
| DayHourHeatmap.HeatmapTotal | BackEnd/src/main/java/com/naturegrain/controller/AdvancedAnalyticsController.java:486-519 | the heatmap's values add up to the number of orders fetched |
| CompletionRate.DaySummaryAsWritten | BackEnd/src/main/java/com/naturegrain/controller/AdvancedAnalyticsController.java:552-573 | as written: a day's total is the number of its orders, completed counts its "COMPLETED" orders and cancelled its "CANCELED" orders, the two disjoint parts of the total, and both rates are their share of the total, times 100 |
| CompletionRate.SummariesDifferOnlyInCancelled | BackEnd/src/main/java/com/naturegrain/controller/AdvancedAnalyticsController.java:552-573 | the as-written and the corrected summaries of a day agree on the date, the total, the completed count and the completion rate |
| CompletionRate.DaySummary | BackEnd/src/main/java/com/naturegrain/controller/AdvancedAnalyticsController.java:552-573 | with the status the cancel flow stores: the day's total is the number of its orders, completed counts those with status "COMPLETED" and cancelled those with "CANCELLED", the two are disjoint parts of the total, and both rates are their share of the total, times 100 |
| CompletionRate.CancelledCountMismatch | BackEnd/src/main/java/com/naturegrain/controller/AdvancedAnalyticsController.java:558 | an order cancelled through the API, status "CANCELLED", is not counted as cancelled as written, and is counted under the corrected summary |
| CompletionRate.DaySummaries | BackEnd/src/main/java/com/naturegrain/controller/AdvancedAnalyticsController.java:538-576 | one as-written summary per day that has dated orders, and only those |
| CompletionRate.CompletionRates | BackEnd/src/main/java/com/naturegrain/controller/AdvancedAnalyticsController.java:526-582 | the rows are sorted by date and are exactly the as-written day summaries, so cancelled counts "CANCELED" |
| CompletionRate.CompletionRowsCover | BackEnd/src/main/java/com/naturegrain/controller/AdvancedAnalyticsController.java:536-576 | each row of the report as written has orders with completed + cancelled ≤ total, and the day totals add up to the dated orders of the window |
| CategoryPerformance.DateRange | BackEnd/src/main/java/com/naturegrain/controller/AdvancedAnalyticsController.java:446-450 | missing dates default to the 30 days up to today |
| CategoryPerformance.CategoryRows | BackEnd/src/main/java/com/naturegrain/controller/AdvancedAnalyticsController.java:457-470 | rows without a category are skipped, all others are kept in order with a missing revenue or order count shown as 0 |
| CategoryPerformance.CategoryRowsKeepQueryRows | BackEnd/src/main/java/com/naturegrain/controller/AdvancedAnalyticsController.java:456-470 | on rows from the query, which always carry a category, the loop passes every row through unchanged and in order |
| CategoryPerformance.Window | BackEnd/src/main/java/com/naturegrain/controller/AdvancedAnalyticsController.java:453-454 | the window runs from the start of the first day to the start of the day after the last |
| CategoryPerformance.CategoryPerformanceRows | BackEnd/src/main/java/com/naturegrain/controller/AdvancedAnalyticsController.java:441-473 | the report lists the query's categories over that window, highest revenue first, with revenues summing to the window's line total |
| LifetimeValue.EarliestStamp | BackEnd/src/main/java/com/naturegrain/controller/AdvancedAnalyticsController.java:318-320 | the first order date is no later than any of the user's order dates and is one of them |
| LifetimeValue.MonthlyValue | BackEnd/src/main/java/com/naturegrain/controller/AdvancedAnalyticsController.java:333-334 | after more than 30 days the monthly value is totalSpent·30/days, otherwise the total itself |
| LifetimeValue.AverageClv | BackEnd/src/main/java/com/naturegrain/controller/AdvancedAnalyticsController.java:359-362 | the average CLV is the sum of the rows' CLV over their number, or 0 with no rows |
| LifetimeValue.ClvFailureSticks | BackEnd/src/main/java/com/naturegrain/controller/AdvancedAnalyticsController.java:298-348 | once the loop has thrown on a prefix of the groups, the whole report fails |
| LifetimeValue.CustomerRows | BackEnd/src/main/java/com/naturegrain/controller/AdvancedAnalyticsController.java:298-348 | the loop fails exactly when the row function fails, and otherwise yields its rows |
| LifetimeValue.CustomerLifetimeValue | BackEnd/src/main/java/com/naturegrain/controller/AdvancedAnalyticsController.java:289-375 | fails exactly when some row throws; otherwise the rows are sorted by CLV, highest first, as a permutation of the computed rows, every user id that exists and has orders has exactly one row and no other id has one, and the report carries their count, their average CLV and their average monthly value |
| LifetimeValue.ClvRowsOnePerCustomer | BackEnd/src/main/java/com/naturegrain/controller/AdvancedAnalyticsController.java:297-348 | the loop's rows, in order, carry exactly the grouped user ids whose user still exists (and has orders): no such group is skipped and no other gets a row |
| LifetimeValue.AverageMonthlyValue | BackEnd/src/main/java/com/naturegrain/controller/AdvancedAnalyticsController.java:345-367 | the average monthly value is the mean of the rows' monthly values as stored, after Math.round, or 0 with no rows |
| LifetimeValue.AveragesIgnoreOrder | BackEnd/src/main/java/com/naturegrain/controller/AdvancedAnalyticsController.java:350-367 | both summary averages are the same for any reordering of the rows, so averaging after the sort gives the averages of the rows in group order |
| Seqs.MathRound | BackEnd/src/main/java/com/naturegrain/controller/AdvancedAnalyticsController.java:345 | `Math.round` gives the integer r with r ≤ x + 1/2 < r + 1, the nearest integer with halves rounded up |
| Seqs.MathRoundUnique | BackEnd/src/main/java/com/naturegrain/controller/AdvancedAnalyticsController.java:345 | no other integer meets that bound, so the rounding is determined |
| LifetimeValue.ClvRowsSucceed | BackEnd/src/main/java/com/naturegrain/controller/AdvancedAnalyticsController.java:303-320 | the report fails exactly when some order of an existing user has no date (the date comparator throws) |
| LifetimeValue.ClvRowFigures | BackEnd/src/main/java/com/naturegrain/controller/AdvancedAnalyticsController.java:299-345 | every row is an existing user with at least one order; its order count, total spent and CLV are those of the user's orders; its days since first order are counted from the oldest order |
| OrderService.FindUserByName | BackEnd/src/main/java/com/naturegrain/service/impl/OrderServiceImpl.java:47-48 | a found user is in the list with that username; nothing is found exactly when no user has it |
| OrderService.FindProduct | BackEnd/src/main/java/com/naturegrain/service/impl/OrderServiceImpl.java:79-80 | a found product is in the list with that id; nothing is found exactly when no product has it |
| OrderService.Drafts | BackEnd/src/main/java/com/naturegrain/service/impl/OrderServiceImpl.java:69-86 | the loop fails exactly when some request line names an unknown product id; otherwise it builds one line per request line and their subtotals add up to Σ price·quantity of the requests |
| OrderService.DraftsCopy | BackEnd/src/main/java/com/naturegrain/service/impl/OrderServiceImpl.java:70-82 | each built line copies name, price and quantity, stores subTotal = price·quantity, and links the named product (none for a null product id) |
| OrderService.DraftsFirstFailure | BackEnd/src/main/java/com/naturegrain/service/impl/OrderServiceImpl.java:78-80 | the NotFound names the first request line whose product id is unknown |
| OrderService.DraftsFailurePersists | BackEnd/src/main/java/com/naturegrain/service/impl/OrderServiceImpl.java:69-86 | once a prefix of the request lines fails, the whole loop fails with that same error |
| OrderService.SavedTotal | BackEnd/src/main/java/com/naturegrain/service/impl/OrderServiceImpl.java:84-85 | saving the lines does not change their total |
| OrderService.PlacedOrder | BackEnd/src/main/java/com/naturegrain/service/impl/OrderServiceImpl.java:44-95 | a placed order is "PENDING", belongs to the named user, has total Σ price·quantity of the request lines and equal to its saved lines' total; every saved line copies its request and points at the order |
| OrderService.PlaceOrderFailure | BackEnd/src/main/java/com/naturegrain/service/impl/OrderServiceImpl.java:47-48 | placing fails exactly for an unknown username or an unknown product id, and an unknown username is reported first |
| OrderService.ClientTotalIgnored | BackEnd/src/main/java/com/naturegrain/service/impl/OrderServiceImpl.java:68-89 | the total the client sends has no effect on what is placed |
| OrderService.RelinkChanges | BackEnd/src/main/java/com/naturegrain/service/impl/OrderServiceImpl.java:155-169 | only a line without product and with a non-empty name and a search hit changes, and only in its product, which becomes the first hit |
| OrderService.RelinkCountBound | BackEnd/src/main/java/com/naturegrain/service/impl/OrderServiceImpl.java:155-171 | the count returned is at most the number of unlinked lines, and so at most the number of lines |
| OrderService.RelinkIdempotent | BackEnd/src/main/java/com/naturegrain/service/impl/OrderServiceImpl.java:151-172 | running the re-link job again changes nothing and reports 0 |
| OrderService.OrderIndex | BackEnd/src/main/java/com/naturegrain/service/impl/OrderServiceImpl.java:177-178 | the index of the first order with that id, or −1 exactly when no order has it |
| OrderService.StatusUpdated | BackEnd/src/main/java/com/naturegrain/service/impl/OrderServiceImpl.java:176-182 | fails with NotFound exactly for an unknown id; otherwise the orders differ only in that order's status, which becomes the given string |
| OrderService.StatusUpdateUnchecked | BackEnd/src/main/java/com/naturegrain/service/impl/OrderServiceImpl.java:176-182 | any status can be set on any existing order, and setting the old status back restores the orders |
| OrderService.OrderStore.constructor | BackEnd/src/main/java/com/naturegrain/service/impl/OrderServiceImpl.java:30-41 | the store holds the given repositories and id counters |
| OrderService.OrderStore.PlaceOrder | BackEnd/src/main/java/com/naturegrain/service/impl/OrderServiceImpl.java:42-95 | on failure nothing changes; on success the order and its lines are appended as the placement function says and the id counters advance |
| OrderService.OrderStore.RelinkProducts | BackEnd/src/main/java/com/naturegrain/service/impl/OrderServiceImpl.java:149-172 | the lines become the re-linked lines and the count returned is the number re-linked; nothing else changes |
| OrderService.OrderStore.UpdateOrderStatus | BackEnd/src/main/java/com/naturegrain/service/impl/OrderServiceImpl.java:174-182 | an unknown id changes nothing; otherwise the orders become the updated list and the updated order is returned |
| OrderService.BuildLines | BackEnd/src/main/java/com/naturegrain/service/impl/OrderServiceImpl.java:68-86 | the loop's lines are the draft function's result, and the running total is their subtotal sum |
| OrderService.RelinkLines | BackEnd/src/main/java/com/naturegrain/service/impl/OrderServiceImpl.java:160-171 | the loop's lines and counter equal the re-link function and its count |
| OrderController.CancelSpec | BackEnd/src/main/java/com/naturegrain/controller/OrderController.java:134-170 | 404 exactly for an unknown id; 200 exactly for a "PENDING" order, which is then stored as "CANCELLED"; 400 for any other status, a missing one included; the orders change only on 200 |
| OrderController.CancelOnce | BackEnd/src/main/java/com/naturegrain/controller/OrderController.java:139-166 | a cancelled order keeps its position, is "CANCELLED", and cancelling it again is a bad request that changes nothing |
| OrderController.CancelAfterReopen | BackEnd/src/main/java/com/naturegrain/controller/OrderController.java:289-298 | the status endpoint can set a cancelled order back to "PENDING", after which it can be cancelled again |
| OrderController.CancelOrder | BackEnd/src/main/java/com/naturegrain/controller/OrderController.java:132-170 | the store's orders and the reply follow the cancel rule; users, products, lines and id counters are untouched |
| OrderController.SortKeyOf | BackEnd/src/main/java/com/naturegrain/controller/OrderController.java:259-284 | "oldest", "highest_price" and "lowest_price" select their own order; every other value sorts newest first |
| OrderController.ComparatorTotal | BackEnd/src/main/java/com/naturegrain/controller/OrderController.java:262-282 | each of the four comparators is a total preorder |
| OrderController.SortOrders | BackEnd/src/main/java/com/naturegrain/controller/OrderController.java:259-284 | the date sorts throw exactly when two or more orders are listed and one has no creation time; otherwise the result is sorted by the chosen comparator and a permutation of the input |
| OrderController.GetAllOrders | BackEnd/src/main/java/com/naturegrain/controller/OrderController.java:239-287 | the id-descending service list sorted by the chosen option: fails exactly as the date comparator does, otherwise sorted and a permutation of all orders |
| OrderController.UnknownSortIsNewest | BackEnd/src/main/java/com/naturegrain/controller/OrderController.java:280-283 | any unrecognised value lists the orders exactly as "newest" does |
| OrderController.DateSortStamped | BackEnd/src/main/java/com/naturegrain/controller/OrderController.java:262-267 | a successful date sort of two or more orders lists only orders with a creation time, all of them |
| OrderController.NewestSortOrder | BackEnd/src/main/java/com/naturegrain/controller/OrderController.java:260-263 | "newest" lists creation times in descending order |
| OrderController.OldestSortOrder | BackEnd/src/main/java/com/naturegrain/controller/OrderController.java:265-268 | "oldest" lists creation times in ascending order |
| OrderController.PriceSortTotal | BackEnd/src/main/java/com/naturegrain/controller/OrderController.java:270-278 | the price sorts never fail, and "highest_price" lists totals in descending order |
| OrderController.StatusActivity | BackEnd/src/main/java/com/naturegrain/controller/OrderController.java:315-324 | ORDER_COMPLETED exactly when the status upper-cases to "COMPLETED", ORDER_UPDATED otherwise |
| OrderController.StatusActivityExamples | BackEnd/src/main/java/com/naturegrain/controller/OrderController.java:315-324 | the comparison ignores case; "PROCESSING", "SHIPPING", "CANCELLED" and " COMPLETED" are logged as updates |
| OrderController.StatusEndpointOutcomes | BackEnd/src/main/java/com/naturegrain/controller/OrderController.java:291-339 | 400 exactly without a "status" entry; 500 for an unknown id; both change nothing; otherwise the order gets the given status and the activity follows it |
| OrderController.UpdateOrderStatus | BackEnd/src/main/java/com/naturegrain/controller/OrderController.java:289-339 | the store's orders and the reply follow the endpoint function; users, products, lines and id counters are untouched |
| OrderDebugger.Analyze | FrontEnd/src/utils/orderDetailDebugger.js:13-69 | a missing order gives the failure result; otherwise missing lines count as none, the linked and unlinked counts are the numbers of lines with and without a product and make the total, the unlinked list holds exactly the lines without a product, the computed total is the sum over the lines of subTotal, or price·quantity when subTotal is missing or 0, and the match flag and message say whether it equals the order's total |
| OrderDebugger.SerializedAmount | FrontEnd/src/utils/orderDetailDebugger.js:33 | a server line's amount as the client computes it is the server subtotal price·quantity, also when that is 0 |
| OrderDebugger.ServerOrderAnalysis | FrontEnd/src/utils/orderDetailDebugger.js:32-38 | for an order sent by the server the computed total is its lines' subtotal sum, so the check agrees exactly when the stored total is that sum |
| OrderDebugger.PlacedOrderAgrees | BackEnd/src/main/java/com/naturegrain/service/impl/OrderServiceImpl.java:40-95 | every order placed by the order service passes the client's total check |
| OrderDebugger.NoDetails | FrontEnd/src/utils/orderDetailDebugger.js:25-38 | an order without lines has no items and a computed total of 0, agreeing only with a zero total |
| Cloudinary.AfterUpload | BackEnd/src/main/java/com/naturegrain/controller/CloudinaryImageController.java:335-337 | the text after "/upload/" exists exactly when the URL contains the marker |
| Cloudinary.AfterUploadOfPrefix | BackEnd/src/main/java/com/naturegrain/controller/CloudinaryImageController.java:335-337 | behind a prefix free of the marker, the text after it is everything that follows |
| Cloudinary.LastIndexOfCharSuffix | BackEnd/src/main/java/com/naturegrain/controller/CloudinaryImageController.java:342-344 | the last "." of the path after the version is the last "." of the whole text, when that lies in the path |
| Cloudinary.ControllerPublicId | BackEnd/src/main/java/com/naturegrain/controller/CloudinaryImageController.java:328-351 | null or "" gives ""; no marker, or no "/" after it, gives "unknown" |
| Cloudinary.ControllerPathOf | BackEnd/src/main/java/com/naturegrain/controller/CloudinaryImageController.java:340-347 | the controller's cut recovers the public id from `<version>/<id>.<format>` and from `<version>/<id>` |
| Cloudinary.ControllerPublicIdRoundTrip | BackEnd/src/main/java/com/naturegrain/controller/CloudinaryImageController.java:328-351 | the controller's extractor inverts URL building, dropping prefix, version and format, with or without a format |
| Cloudinary.VersionSlash | BackEnd/src/main/java/com/naturegrain/controller/CloudinaryImageController.java:340 | the first "/" after the marker is the one that ends the version |
| Cloudinary.LastDotOf | BackEnd/src/main/java/com/naturegrain/controller/CloudinaryImageController.java:343-344 | the last "." of `id.format` is the one before the format, so the cut keeps the id |
| Cloudinary.ServicePublicIdAsWritten | BackEnd/src/main/java/com/naturegrain/service/CloudinaryService.java:139-158 | null or "" gives ""; no marker, or no "/" after it, gives the input back |
| Cloudinary.ServicePublicIdThrows | BackEnd/src/main/java/com/naturegrain/service/CloudinaryService.java:153 | a URL whose path has no "." makes the service's `substring` throw |
| Cloudinary.ServicePublicId | BackEnd/src/main/java/com/naturegrain/service/CloudinaryService.java:139-158 | the corrected extractor agrees with the written one wherever that one does not throw |
| Cloudinary.ServicePath | BackEnd/src/main/java/com/naturegrain/service/CloudinaryService.java:151-154 | the corrected cut agrees with the written cut wherever that one does not throw |
| Cloudinary.ServicePathIsControllerPath | BackEnd/src/main/java/com/naturegrain/service/CloudinaryService.java:151-154 | after the marker, the corrected service cut and the controller's cut give the same text |
| Cloudinary.ServiceMatchesController | BackEnd/src/main/java/com/naturegrain/service/CloudinaryService.java:139-158 | wherever there is a "/" after the marker, the corrected service and the controller extract the same public id |
| Cloudinary.DeleteImage | BackEnd/src/main/java/com/naturegrain/service/CloudinaryService.java:107-120 | a delete succeeds exactly when the extractor does not throw and Cloudinary answers result "ok" for the extracted id |
| Cloudinary.DeleteWithoutFormatFails | BackEnd/src/main/java/com/naturegrain/service/CloudinaryService.java:107-120 | deleting by a URL without a format never reaches Cloudinary and reports failure |
| Cloudinary.ServicePublicIdRoundTrip | BackEnd/src/main/java/com/naturegrain/service/CloudinaryService.java:139-158 | with a format, the service's extractor as written inverts URL building |
| Cloudinary.DeleteByUrl | BackEnd/src/main/java/com/naturegrain/service/CloudinaryService.java:107-115 | deleting by a delivery URL destroys exactly the public id the URL was built from |
| Cloudinary.FileExtension | BackEnd/src/main/java/com/naturegrain/controller/CloudinaryImageController.java:356-361 | the extension holds no "." and no upper-case letter, and is "" for a null name or a name without "." |
| Cloudinary.FileNameSuffix | BackEnd/src/main/java/com/naturegrain/service/CloudinaryService.java:125-131 | the suffix is "" or a "." followed by text without "."; it is a tail of the original name |
| Cloudinary.ExtensionOfName | BackEnd/src/main/java/com/naturegrain/service/CloudinaryService.java:125-133 | for `base.ext` the service keeps ".ext" in the generated name and the controller reports ext lower-cased |
| Cloudinary.ExtensionOfBareName | BackEnd/src/main/java/com/naturegrain/service/CloudinaryService.java:125-133 | a name without "." has no extension for either, and the generated name is the random part alone |
| Cart.FindIndex | FrontEnd/src/context/CartContext.jsx:50-52 | `findIndex`: the first line with that product id, or -1 exactly when no line has it |
| Cart.AddExisting | FrontEnd/src/context/CartContext.jsx:56-62 | adding a product already in the cart changes only that line's quantity, keeps its stored price, and raises count by the quantity and total by price × quantity |
| Cart.AddNew | FrontEnd/src/context/CartContext.jsx:64-75 | adding a product not in the cart appends one line with its id, name, price, image and the quantity, raising count and total accordingly |
| Cart.AddKeepsIdsUnique | FrontEnd/src/context/CartContext.jsx:47-81 | adding never creates a second line for a product; afterwards the cart holds exactly the old ids plus the product's |
| Cart.RemovedSum | FrontEnd/src/context/CartContext.jsx:88 | a sum over the kept lines is the full sum less the removed lines' share |
| Cart.MatchingShare | FrontEnd/src/context/CartContext.jsx:88 | with one line per product, the removed share is that of the product's line, or nothing |
| Cart.RemoveSpec | FrontEnd/src/context/CartContext.jsx:84-94 | removal keeps the other lines in order and drops every line for the id |
| Cart.CountOfId | FrontEnd/src/context/CartContext.jsx:50-52 | with one line per product exactly one line matches an id in the cart |
| Cart.RemoveTotals | FrontEnd/src/context/CartContext.jsx:84-94 | removing a product takes exactly its line's quantity off the count and its line amount off the total |
| Cart.RemoveKeepsIdsUnique | FrontEnd/src/context/CartContext.jsx:88 | after removal the ids are still distinct and the removed id is gone |
| Cart.SubsequenceUnique | FrontEnd/src/context/CartContext.jsx:88 | any order-preserving selection of a cart with distinct ids has distinct ids and only its lines |
| Cart.UpdateSpec | FrontEnd/src/context/CartContext.jsx:97-108 | a quantity ≤ 0 is a removal; any other quantity replaces the matching lines' quantity and leaves the rest as they were |
| Cart.UpdateTotals | FrontEnd/src/context/CartContext.jsx:97-108 | setting a positive quantity keeps ids distinct, changes nothing for an absent id, and moves count and total by the change on that one line |
| Cart.CartState.constructor | FrontEnd/src/context/CartContext.jsx:9-11 | the cart starts empty with count and total 0 |
| Cart.CartState.Recompute | FrontEnd/src/context/CartContext.jsx:28-44 | the effect recomputes count as the sum of quantities and total as the sum of price × quantity, leaving the items alone |
| Cart.CartState.AddToCart | FrontEnd/src/context/CartContext.jsx:47-81 | the items become `Added` with quantity defaulting to 1, count rises by that quantity, and totals and distinct ids are kept in step |
| Cart.CartState.RemoveFromCart | FrontEnd/src/context/CartContext.jsx:84-94 | the items become `Removed`, no line for the id is left, totals stay in step |
| Cart.CartState.UpdateQuantity | FrontEnd/src/context/CartContext.jsx:97-108 | the items become `QuantityUpdated`, totals stay in step |
| Cart.CartState.ClearCart | FrontEnd/src/context/CartContext.jsx:111-115 | the cart is emptied and count and total become 0 |
| CartPage.ShippingAsWritten | FrontEnd/src/pages/CartPage.jsx:11 | the page's fee is 0 exactly when the cart total is strictly above 500 000 |
| CartPage.RemainingForFreeShipping | FrontEnd/src/pages/CartPage.jsx:173-178 | the amount shown as still missing is positive and is the least one that makes the hint promise free shipping |
| CartPage.HintContradictsFeeAsWritten | FrontEnd/src/pages/CartPage.jsx:11 | adding exactly the missing amount reaches a total where the hint promises free shipping but the page's rule still charges 30 000 |
| CartPage.Shipping | FrontEnd/src/pages/CartPage.jsx:173 | the corrected fee is 0 exactly when the hint promises free shipping, the checkout page's rule |
| CartPage.ShippingDiffersOnlyAtThreshold | FrontEnd/src/pages/CartPage.jsx:11 | the page's rule and the corrected rule disagree at exactly the total 500 000 |
| CartPage.GrandTotal | FrontEnd/src/pages/CartPage.jsx:11-167 | the total line is the cart total plus the page's own fee; it equals the amount the checkout page sends except for a cart worth exactly 500 000, where it shows 30 000 more |
| CartPage.LineTotalsAddUp | FrontEnd/src/pages/CartPage.jsx:114 | the per-line amounts shown beside the items add up to the cart total |
| Checkout.ShippingCost | FrontEnd/src/pages/CheckoutPage.jsx:33-38 | the fee is 0 exactly when the cart total is at least 500 000, and otherwise the flat 30 000 |
| Checkout.OrderTotalBounds | FrontEnd/src/pages/CheckoutPage.jsx:38-41 | the order total lies between the cart total and the cart total plus the fee; a cart just under the threshold costs more in total than one at it |
| Checkout.PayloadMirrorsCart | FrontEnd/src/pages/CheckoutPage.jsx:74-79 | the payload has one line per cart item, in cart order, copying name, price and quantity and linking the item's product id; its line subtotals add up to the cart total |
| Checkout.StoredTotalExcludesShipping | FrontEnd/src/pages/CheckoutPage.jsx:93 | when the server accepts the checkout request it stores the cart total, short of the sent total by exactly the fee, so the two agree only from the free-shipping threshold on |
| Checkout.PostCodeOfDigits | FrontEnd/src/pages/CheckoutPage.jsx:91 | a post code typed as digits, with or without text after them, is sent as that number |
| Checkout.PostCodeNotANumber | FrontEnd/src/pages/CheckoutPage.jsx:91 | a field that does not start, after leading spaces, with a digit or a sign is sent as 0 |
| Checkout.RedirectRule | FrontEnd/src/pages/CheckoutPage.jsx:44-48 | the page leaves for the cart only when the cart is empty and no order has just been placed |
| AnalyticsOptimizer.CeilDiv | FrontEnd/src/utils/analyticsOptimizer.js:19 | `Math.ceil(a / b)`: the least q with q·b ≥ a |
| AnalyticsOptimizer.Plus | FrontEnd/src/utils/analyticsOptimizer.js:40 | JavaScript `+` gives text exactly when either side is text |
| AnalyticsOptimizer.ReduceSumOfNumbers | FrontEnd/src/utils/analyticsOptimizer.js:40 | reducing with `+` from 0 over rows that all hold a number gives their arithmetic sum |
| AnalyticsOptimizer.ReduceSumText | FrontEnd/src/utils/analyticsOptimizer.js:40 | once any row holds text at the field the reduction is text |
| AnalyticsOptimizer.ReduceSumUndefined | FrontEnd/src/utils/analyticsOptimizer.js:40 | without text, a row lacking the field makes the reduction NaN |
| AnalyticsOptimizer.ReduceSumExamples | FrontEnd/src/utils/analyticsOptimizer.js:40 | 1 then "x" gives "1x", 1 then true gives 2, and 1 then a missing field gives NaN |
| AnalyticsOptimizer.AggregateField | FrontEnd/src/utils/analyticsOptimizer.js:28-42 | a field that is a number in every row of the chunk holds the chunk's sum; a field numeric in the first row but text in some row becomes text; a non-numeric field is the first row's value in the first chunk and its range label in every later one |
| AnalyticsOptimizer.Aggregate | FrontEnd/src/utils/analyticsOptimizer.js:25-44 | a point has exactly the keys of the chunk's first row, and each key holds that field aggregated over the chunk |
| AnalyticsOptimizer.OptimizeDataset | FrontEnd/src/utils/analyticsOptimizer.js:12-50 | the chunking loop returns `Optimized`: [] for no data, the data itself when it fits, else one aggregated point per chunk of ceil(n / max) rows |
| AnalyticsOptimizer.AggregatedStep | FrontEnd/src/utils/analyticsOptimizer.js:23-24 | each pass of the loop consumes the chunk `data.slice(i, i + factor)` and moves on to i + factor |
| AnalyticsOptimizer.AggregatedLength | FrontEnd/src/utils/analyticsOptimizer.js:19-23 | chunking n rows by the factor yields ceil(n / factor) points |
| AnalyticsOptimizer.CeilBound | FrontEnd/src/utils/analyticsOptimizer.js:16-19 | with factor ceil(n / max) and n > max, the number of chunks is at most max |
| AnalyticsOptimizer.OptimizedLength | FrontEnd/src/utils/analyticsOptimizer.js:13-23 | the result never exceeds maxDataPoints; small data comes back unchanged; larger data becomes exactly ceil(n / factor) points |
| AnalyticsOptimizer.AggregateNumeric | FrontEnd/src/utils/analyticsOptimizer.js:36-42 | with 'sum' aggregation a field numeric in the first row is the chunk's sum when every row holds a number, text when some row holds text, and NaN when no row holds text and some row lacks it |
| AnalyticsOptimizer.AggregatedSum | FrontEnd/src/utils/analyticsOptimizer.js:23-42 | summed over all points, a field numeric in every row keeps the total it had over the rows |
| AnalyticsOptimizer.OptimizedKeepsTotals | FrontEnd/src/utils/analyticsOptimizer.js:12-50 | down-sampling preserves the column total of a field that is numeric in every row |
| AnalyticsOptimizer.AggregateLabels | FrontEnd/src/utils/analyticsOptimizer.js:28-33 | a non-numeric field is copied in the first chunk, and becomes "first - last" in a later chunk of two or more rows (the bare first value for a single-row chunk) |
| AnalyticsOptimizer.NumericValues | FrontEnd/src/utils/analyticsOptimizer.js:83 | `Number(...)` then dropping NaN keeps at most one value per row |
| AnalyticsOptimizer.CalculateStatistics | FrontEnd/src/utils/analyticsOptimizer.js:78-87 | with no numeric value (including no data) every statistic is 0 |
| AnalyticsOptimizer.StatisticsBounds | FrontEnd/src/utils/analyticsOptimizer.js:89-99 | min and max are values and bound all values, the median lies between them, sum is the values' sum and average is sum over count |
| AnalyticsOptimizer.SortedExtremes | FrontEnd/src/utils/analyticsOptimizer.js:89-93 | the first and last element of the ascending sort are the minimum and maximum of the values |
| AnalyticsOptimizer.SortedMedian | FrontEnd/src/utils/analyticsOptimizer.js:95-97 | the median (middle value, or mean of the two middle values) lies between the least and greatest value |
| AnalyticsOptimizer.NumericValuesCount | FrontEnd/src/utils/analyticsOptimizer.js:83-87 | when every row's field reads as a number all rows count; when none does the zero statistics are returned |
| AnalyticsOptimizer.NumericValuesCounted | FrontEnd/src/utils/analyticsOptimizer.js:83 | the number of values is the number of rows whose field reads as a number |
| AnalyticsOptimizer.FormatForCsvExport | FrontEnd/src/utils/analyticsOptimizer.js:108-120 | one exported row per input row |
| AnalyticsOptimizer.LastFeed | FrontEnd/src/utils/analyticsOptimizer.js:113-117 | finds the last field-map entry that writes a defined field under a given export name, or reports that none does |
| AnalyticsOptimizer.ExportRowSpec | FrontEnd/src/utils/analyticsOptimizer.js:111-119 | an exported row has a column exactly for the names some entry maps a defined field to, holding the value written by the last such entry |
| AnalyticsOptimizer.PaginateData | FrontEnd/src/utils/analyticsOptimizer.js:129-136 | page p holds the items from p·size on: pageSize of them, fewer on the last page, none past the end |
| AnalyticsOptimizer.PagesAdjoin | FrontEnd/src/utils/analyticsOptimizer.js:129-136 | page p followed by page p + 1 is the contiguous slice of the data from p·size |
| AnalyticsOptimizer.FilterDatasetSpec | FrontEnd/src/utils/analyticsOptimizer.js:144-178 | the result keeps rows in order and keeps exactly the rows passing every filter; no filters, or only undefined/null/'' ones, keep all rows |
| AnalyticsOptimizer.TextFilter | FrontEnd/src/utils/analyticsOptimizer.js:170-172 | a text filter on a text field is a case-insensitive "contains" |
| AnalyticsOptimizer.RangeFilter | FrontEnd/src/utils/analyticsOptimizer.js:155-167 | a range filter passes exactly the rows whose field reads as a number within the given bounds; an object with neither bound passes nothing |
| Pagination.Pages | FrontEnd/src/components/ui/Pagination.jsx:41-43 | the window's buttons are lo, lo+1, …, hi, none when hi < lo |
| Pagination.GeneratePagination | FrontEnd/src/components/ui/Pagination.jsx:27-56 | the pushes build exactly the bar's layout: first page, left dots, window, right dots, last page, each under its condition |
| Pagination.LayoutShape | FrontEnd/src/components/ui/Pagination.jsx:15-53 | for a shown bar (more than one page, current page in range) the bar starts with page 1, ends with the last page, lists the whole window and the current page, and shows left dots iff left > 2 and right dots iff right < T − 1 |
| Pagination.LayoutGapsMarked | FrontEnd/src/components/ui/Pagination.jsx:19-53 | adjacent page buttons are consecutive pages, and every "..." sits between two page buttons that skip at least one page |
| Pagination.Parts | FrontEnd/src/components/ui/Pagination.jsx:31-53 | the bar is head + window + tail: the head is nothing, page 1, or page 1 and the left dots; the tail mirrors it on the right |
| Pagination.GapAt | FrontEnd/src/components/ui/Pagination.jsx:31-53 | at each position of the bar, two page buttons in a row are consecutive and a "..." is flanked by pages that skip one or more |
| Pagination.NavigationStaysInRange | FrontEnd/src/components/ui/Pagination.jsx:61-80 | previous and next move by one and are disabled only on the first and last page; the dots jump at most 5 pages and never leave 1 … T |
| ImageUtils.BuildTransformations | FrontEnd/src/utils/imageUtils.js:133-144 | the string appended piece by piece equals the transformation "f_<format>,q_<quality>" followed by ",w_", ",h_" for a truthy width or height and ",c_" for a non-empty crop |
| ImageUtils.DefaultTransformations | FrontEnd/src/utils/imageUtils.js:136-144 | with no options the transformation is "f_auto,q_auto,c_fill" |
| ImageUtils.TransformationsOfSize | FrontEnd/src/utils/imageUtils.js:142-144 | non-zero width and height each add a segment; zero sizes and an empty crop add none |
| ImageUtils.TransformationsNoSlash | FrontEnd/src/utils/imageUtils.js:141-146 | options without "/" give a transformation that is a single path segment |
| ImageUtils.CloudinaryUrl | FrontEnd/src/utils/imageUtils.js:130-131 | a missing or empty public id gives the fallback image |
| ImageUtils.AddedFailedSpec | FrontEnd/src/utils/imageUtils.js:153-174 | recording keeps the list to Cloudinary URLs, without repeats and at most 100 long; a Cloudinary URL is in it afterwards; a non-Cloudinary, empty or already listed URL leaves it unchanged; a new URL on a full list drops the oldest |
| ImageUtils.FailedUrls.constructor | FrontEnd/src/utils/imageUtils.js:158 | the remembered list starts empty and well formed |
| ImageUtils.FailedUrls.Add | FrontEnd/src/utils/imageUtils.js:153-174 | the push-then-shift updates the list to the recorded-failure function of the old list and keeps it well formed |
| ImageUtils.FailedUrls.HasFailedBefore | FrontEnd/src/utils/imageUtils.js:181-191 | true exactly for a non-empty URL in the list; such a URL is a Cloudinary URL when the list is well formed |
| ImageUtils.RecordedFailureIsRemembered | FrontEnd/src/utils/imageUtils.js:153-191 | right after a Cloudinary URL is recorded, it is reported as failed |
| ImageUtils.OnlyCloudinaryFailuresRemembered | FrontEnd/src/utils/imageUtils.js:154 | recording a URL without the Cloudinary host never makes it reported as failed |
| ImageUtils.ExtractPublicId | FrontEnd/src/utils/imageUtils.js:261-283 | the id never holds "."; it is "" for a missing or non-Cloudinary URL and for one without "/upload/" |
| ImageUtils.ExtractFromDeliveryUrl | FrontEnd/src/utils/imageUtils.js:268-282 | from a Cloudinary URL with a version segment after "/upload/", the id is the path after that segment up to its first "." (the whole path when it has none) |
| ImageUtils.DeliveryUrlParts | FrontEnd/src/utils/imageUtils.js:263-273 | a URL built behind a Cloudinary prefix passes the host check and its text after "/upload/" is what followed the marker |
| ImageUtils.PathAfterVersion | FrontEnd/src/utils/imageUtils.js:276-282 | split at "/", a version segment is followed by at least one more part, and the remaining parts join back to the path |
| ImageUtils.BaseMentionsHost | FrontEnd/src/utils/imageUtils.js:8-10 | a configured cloud's base URL contains "cloudinary.com" |
| ImageUtils.ExtractInvertsCloudinaryUrl | FrontEnd/src/utils/imageUtils.js:130-147 | extracting the public id from a URL that getCloudinaryUrl built returns the id it was given (ids without ".") |
| ImageUtils.RetransformKeepsId | FrontEnd/src/utils/imageUtils.js:211-216 | re-transforming a built URL with new options gives the same URL as building it from the id directly |
| ImageUtils.CacheBuster | FrontEnd/src/utils/imageUtils.js:290-295 | a missing URL gives the fallback; otherwise the URL is kept as a prefix, followed by "&" when it already has "?" (else "?") and "t=<now>" |
| ImageUtils.CacheBusterTwice | FrontEnd/src/utils/imageUtils.js:290-295 | busting a busted URL again appends "&t=…" |
| ImageUtils.BustedHasQuery | FrontEnd/src/utils/imageUtils.js:293-294 | a busted URL contains "?" |
| ImageUtils.SourceOf | FrontEnd/src/utils/imageUtils.js:202-253 | the source is the Cloudinary URL iff the URL contains the host; the id iff it is non-zero and there is no Cloudinary URL; the fallback iff neither a URL nor an id is given |
| ImageUtils.ImageUrl | FrontEnd/src/utils/imageUtils.js:202-254 | the fallback when nothing is given; an absolute URL as is; a relative name and (without Cloudinary) an id through the photos endpoint |
| ImageUtils.ImageUrlPriority | FrontEnd/src/utils/imageUtils.js:204-242 | with a Cloudinary URL the id never matters; with an id and no Cloudinary URL the URL never matters |
| ImageUtils.CloudinaryUrlChoice | FrontEnd/src/utils/imageUtils.js:204-217 | a previously failed Cloudinary URL yields the fallback; one not failed is returned as is unless a transformation is requested |
| ImageUtils.ImageUrlNonEmpty | FrontEnd/src/utils/imageUtils.js:202-254 | with a non-empty fallback every image gets a non-empty address |
| CachedFetch.SplitJoin | FrontEnd/src/hooks/useCachedFetch.js:32 | splitting a "\|"-join of parts free of "\|" gives the parts back, so the joined dependencies can be read back |
| CachedFetch.CacheKeyInjective | FrontEnd/src/hooks/useCachedFetch.js:30-34 | different function names or dependency lists give different keys, when names hold no ":", dependencies no "\|" and there is at least one dependency |
| CachedFetch.CacheKeyCollisions | FrontEnd/src/hooks/useCachedFetch.js:30-34 | without those provisos keys collide: "a\|b" versus "a","b"; no dependency versus one empty one; an unnamed function versus one named "anonymous" |
| CachedFetch.Fetch | FrontEnd/src/hooks/useCachedFetch.js:36-75 | the fetch function is skipped exactly when caching is on, the call is not forced and the entry is younger than the duration; a served entry leaves the cache alone; a failure stores nothing and returns null; a success is returned and, with caching on, stored under the key |
| CachedFetch.StoredResponseIsServed | FrontEnd/src/hooks/useCachedFetch.js:41-62 | a response just stored is served, without another fetch, by any unforced call within the cache duration |
| CachedFetch.StaleOrForcedRefetches | FrontEnd/src/hooks/useCachedFetch.js:41-51 | a forced call, disabled caching, a missing entry or an expired one makes the fetch function run |
| CachedFetch.FetchTouchesOnlyItsKey | FrontEnd/src/hooks/useCachedFetch.js:58-63 | a fetch never adds, removes or changes the entry of another key |
| CachedFetch.ApiCache.constructor | FrontEnd/src/hooks/useCachedFetch.js:5 | the shared cache starts empty |
| CachedFetch.ApiCache.Invalidate | FrontEnd/src/hooks/useCachedFetch.js:78-81 | removes the key's entry and nothing else |
| CachedFetch.ApiCache.ClearAll | FrontEnd/src/hooks/useCachedFetch.js:96-99 | empties the cache |
| CachedFetch.InvalidateForcesFetch | FrontEnd/src/hooks/useCachedFetch.js:78-81 | after invalidating a key the next fetch for it runs the fetch function, and other keys keep their entries |
| CachedFetch.CachedFetchHook.constructor | FrontEnd/src/hooks/useCachedFetch.js:16-34 | the hook's key is generateCacheKey of its function name and dependencies; the duration defaults to five minutes; data and error start null, loading false |
| CachedFetch.CachedFetchHook.FetchData | FrontEnd/src/hooks/useCachedFetch.js:36-75 | returns and stores what `Fetch` prescribes; data is set on success, error on failure, and loading ends false |
| CachedFetch.CachedFetchHook.InvalidateCache | FrontEnd/src/hooks/useCachedFetch.js:78-81 | removes this hook's own entry from the shared cache |
| Register.UsernameErrorAsWritten | FrontEnd/src/pages/auth/RegisterPage.jsx:45-49 | as written, the page passes a username exactly when it is non-blank and at least 4 characters long |
| Register.UsernameGapAsWritten | BackEnd/src/main/java/com/naturegrain/model/request/CreateUserRequest.java:23 | a non-blank username of exactly 4 characters, or of more than 30, passes the page and is refused by the server's 5–30 rule |
| Register.UsernameGapExample | FrontEnd/src/pages/auth/RegisterPage.jsx:47 | "abcd" passes the page and is refused by the server |
| Register.UsernameError | BackEnd/src/main/java/com/naturegrain/model/request/CreateUserRequest.java:23 | the corrected check passes exactly a non-blank username of 5 to 30 characters, and reports a missing one as missing |
| Register.UsernameErrorRefinesAsWritten | FrontEnd/src/pages/auth/RegisterPage.jsx:45-49 | every username the corrected check passes also passes the page's check and the server's rule |
| Register.EmailMatchesShape | FrontEnd/src/pages/auth/RegisterPage.jsx:38 | the position-based test accepts exactly the strings of the pattern: one "@" after a non-empty start, a "." with text on both sides after it, no white space |
| Register.FullNameMessage | FrontEnd/src/pages/auth/RegisterPage.jsx:41-43 | a message exactly when the full name is blank after trimming |
| Register.EmailMessage | FrontEnd/src/pages/auth/RegisterPage.jsx:51-55 | a message exactly when the email is blank or does not have the pattern's shape; "missing" exactly when it is blank |
| Register.PasswordMessage | FrontEnd/src/pages/auth/RegisterPage.jsx:57-61 | a message exactly when the password is shorter than 6; "missing" exactly when it is empty |
| Register.Message | FrontEnd/src/pages/auth/RegisterPage.jsx:45-73 | the username fails exactly when blank or shorter than 4 (the page's rule); the confirmation exactly when it differs from the password; the phone exactly when non-empty and not 10 digits; the terms exactly when unticked |
| Register.NoMessageIffAcceptable | FrontEnd/src/pages/auth/RegisterPage.jsx:36-76 | a form draws no message at all exactly when every field is acceptable to the page, the username being non-blank and at least 4 characters |
| Register.AcceptedFormRefusedByServer | FrontEnd/src/pages/auth/RegisterPage.jsx:45-49 | a form the page accepts carries a username the server refuses exactly when that name has 4 characters or more than 30, and the page shows no username message for it |
| Register.NoteAll | FrontEnd/src/pages/auth/RegisterPage.jsx:37-73 | the map built check by check holds exactly the fields that have a message, with that message |
| Register.ValidateForm | FrontEnd/src/pages/auth/RegisterPage.jsx:36-77 | the errors report every field's message under the page's own rules, and the form is valid iff every field is acceptable to the page iff no message was recorded |
| Register.ReportsUnique | FrontEnd/src/pages/auth/RegisterPage.jsx:36-75 | the recorded errors are determined by the form |
| Register.WithText | FrontEnd/src/pages/auth/RegisterPage.jsx:22-27 | a text edit never changes the terms box |
| Register.Cleared | FrontEnd/src/pages/auth/RegisterPage.jsx:29-32 | editing a field leaves no message shown for it and every other field's message as it was |
| Register.RegisterPage.constructor | FrontEnd/src/pages/auth/RegisterPage.jsx:7-16 | the page starts with the empty form and no errors |
| Register.RegisterPage.HandleText | FrontEnd/src/pages/auth/RegisterPage.jsx:22-33 | a text edit stores the value in its field and clears only that field's message |
| Register.RegisterPage.HandleTerms | FrontEnd/src/pages/auth/RegisterPage.jsx:22-33 | ticking or unticking the box stores it and clears only its message |
| Register.RegisterPage.Validate | FrontEnd/src/pages/auth/RegisterPage.jsx:36-77 | the form is kept, the errors report it, and the result says whether every field is acceptable |
| Contact.EmailMatchesShape | FrontEnd/src/pages/ContactPage.jsx:77 | the position-based test agrees with the pattern `^\S+@\S+\.\S+$`: no white space, an "@" after some text, then a "." with text on both sides |
| Contact.Required | FrontEnd/src/pages/ContactPage.jsx:71-87 | a required field gets its message exactly when it is blank after trimming |
| Contact.EmailMessage | FrontEnd/src/pages/ContactPage.jsx:75-79 | a blank email gets "Vui lòng nhập email"; a non-blank email not matching the pattern gets "Email không hợp lệ"; a well-formed one gets none |
| Contact.NoMessageIffAcceptable | FrontEnd/src/pages/ContactPage.jsx:68-91 | no field has a message exactly when name, subject and message are non-blank and the email is present and well formed |
| Contact.NoteAll | FrontEnd/src/pages/ContactPage.jsx:69-88 | the errors hold exactly the fields that have a message, with that message |
| Contact.ValidateForm | FrontEnd/src/pages/ContactPage.jsx:68-91 | the errors report every failing field with its message, and the form is valid exactly when it is acceptable, exactly when no error was recorded |
| Contact.WithValueSpec | FrontEnd/src/pages/ContactPage.jsx:51-56 | typing into an input changes that input's value and no other |
| Contact.Blanked | FrontEnd/src/pages/ContactPage.jsx:58-64 | typing into a field blanks its shown message and leaves every other message alone |
| Contact.ContactPage.constructor | FrontEnd/src/pages/ContactPage.jsx:14-27 | the form starts with four empty fields and no errors |
| Contact.ContactPage.HandleChange | FrontEnd/src/pages/ContactPage.jsx:51-65 | the form takes the new value and the field's message is blanked |
| Contact.ContactPage.HandleSubmit | FrontEnd/src/pages/ContactPage.jsx:94-123 | the form is validated; after a valid form is sent all four fields are emptied, otherwise the form is kept |
| Search.ParseNatString | FrontEnd/src/pages/SearchPage.jsx:20-26 | a price or page number written in decimal is read back by parseInt as itself |
| Search.DefaultNumbers | FrontEnd/src/pages/SearchPage.jsx:20-26 | the fallback texts "1", "0" and "1000000" read as page 1 and the price bounds 0 and 1,000,000 |
| Search.ReadQueryDefaults | FrontEnd/src/pages/SearchPage.jsx:19-26 | with no parameters the page reads an empty query, page 1, sort "latest", no category and the bounds 0 and 1,000,000 |
| Search.FilteredSpec | FrontEnd/src/pages/SearchPage.jsx:57-71 | the category filter and then the price filter keep exactly the hits matching every filter switched on, in search order |
| Search.DefaultBoundsKeepEverything | FrontEnd/src/pages/SearchPage.jsx:66-71 | at the default bounds and without a category nothing is filtered, not even hits dearer than 1,000,000 |
| Search.UnreadableBoundHidesAll | FrontEnd/src/pages/SearchPage.jsx:25-26 | an unreadable price bound (NaN) differs from the defaults and fails every comparison, so it hides every hit |
| Search.OrdersArePreorders | FrontEnd/src/pages/SearchPage.jsx:74-82 | the four comparators (price and name, ascending and descending) are total preorders |
| Search.OrderedSpec | FrontEnd/src/pages/SearchPage.jsx:73-82 | ordering keeps the same hits and sorts them as the sort parameter asks; any other sort value keeps search order |
| Search.TotalPages | FrontEnd/src/pages/SearchPage.jsx:86-88 | the page count covers the matches with no page to spare, and is 1 when there are none |
| Search.RunSearch | FrontEnd/src/pages/SearchPage.jsx:40-95 | the search effect leaves the state given by the query read from the parameters and the server's answer |
| Search.ApplyFilters | FrontEnd/src/pages/SearchPage.jsx:57-71 | the working list after the filters is the filtered matches |
| Search.ApplySort | FrontEnd/src/pages/SearchPage.jsx:73-82 | the working list after sorting is the ordered matches |
| Search.Paginate | FrontEnd/src/pages/SearchPage.jsx:84-95 | the count, the page count and the page's slice of the working list |
| Search.BlankQueryShowsNothing | FrontEnd/src/pages/SearchPage.jsx:42-50 | a blank query, or a failed request, shows no products, 0 items and one page |
| Search.PagedSpec | FrontEnd/src/pages/SearchPage.jsx:84-95 | the item count is the list's length, the page count covers it, and a page from the first on shows at most twelve of its items |
| Search.ResultsSpec | FrontEnd/src/pages/SearchPage.jsx:52-95 | with a query, the count is the number of matching hits, the page count covers them, and a page shows at most twelve products, each a matching hit |
| Search.ResultsPaged | FrontEnd/src/pages/SearchPage.jsx:52-95 | with a query, the state is the paging of the ordered matches |
| Search.ShownOnItsPage | FrontEnd/src/pages/SearchPage.jsx:91-93 | the item at index i is shown on page i / 12 + 1, which lies between the first and the last page |
| Search.MatchIndex | FrontEnd/src/pages/SearchPage.jsx:57-82 | every matching hit has a place among the ordered matches |
| Search.ShownWithPage | FrontEnd/src/pages/SearchPage.jsx:91-93 | the ordered match at index i is shown when the query asks for page i / 12 + 1 |
| Search.EveryMatchOnSomePage | FrontEnd/src/pages/SearchPage.jsx:52-95 | every matching hit is shown on some page between the first and the last |
| Search.HandleFilterChange | FrontEnd/src/pages/SearchPage.jsx:110-139 | the fresh parameter set after a filter change is the one the filters determine |
| Search.FilterParamsSpec | FrontEnd/src/pages/SearchPage.jsx:110-139 | a filter change writes the query when there is one, page "1" always, sort and category when set, and both price bounds exactly when the range holds a "-" |
| Search.FilterChangeRoundTrip | FrontEnd/src/pages/SearchPage.jsx:110-139 | reading back what a filter change wrote gives the same query on page 1 with the chosen sort and category; a range without "-" leaves the price filter off |
| Search.PriceBoundsOfNumbers | FrontEnd/src/pages/SearchPage.jsx:132-133 | splitting "lo-hi" of two decimal numbers at "-" gives the two numbers' texts back |
| Search.PriceRangeRoundTrip | FrontEnd/src/pages/SearchPage.jsx:132-136 | a range "lo-hi" of decimal numbers sets exactly those price bounds |
| Listing.PageCount | FrontEnd/src/pages/admin/Users.jsx:167 | `Math.ceil(n / size)`: enough pages for n items, not one more, and none exactly when n is 0 |
| Listing.PageContents | FrontEnd/src/pages/admin/Users.jsx:164-166 | page p holds at most size items, the ones from (p - 1)·size on, and is full unless it is the last |
| Listing.EveryItemOnAPage | FrontEnd/src/pages/admin/Users.jsx:164-167 | every item appears on the page i / size + 1, which lies between 1 and the page count, at its offset within that page |
| Listing.PagesDisjoint | FrontEnd/src/pages/admin/Users.jsx:164-166 | two different pages never show the same position of the list |
| Users.RankOf | FrontEnd/src/pages/admin/Users.jsx:132-150 | a user ranks as administrator exactly when "ROLE_ADMIN" is among their roles, as moderator exactly when "ROLE_MODERATOR" is and "ROLE_ADMIN" is not, and as plain user otherwise |
| Users.RoleDisplayFollowsRank | FrontEnd/src/pages/admin/Users.jsx:132-150 | the role's name, colour and icon are determined by the rank, except that a missing or non-array roles value gets the grey colour |
| Users.AdminWinsOverModerator | FrontEnd/src/pages/admin/Users.jsx:134-141 | a user holding both roles is shown as "Admin", one holding the moderator role is never shown as "User", and missing or empty roles show "User" |
| Users.FilteredUsers | FrontEnd/src/pages/admin/Users.jsx:152-159 | the list keeps, in order, exactly the users whose username, email or full name contains the search term ignoring case and whose roles include the selected role (every role for "all") |
| Users.EmptySearchListsEveryone | FrontEnd/src/pages/admin/Users.jsx:152-159 | an empty search with role "all" keeps every user |
| Users.SearchIgnoresCase | FrontEnd/src/pages/admin/Users.jsx:153-155 | the search gives the same answer for the term in upper or lower case |
| Users.CurrentUsersSpec | FrontEnd/src/pages/admin/Users.jsx:164-166 | page p from the first on shows at most ten filtered users, those from position (p − 1)·10 on |
| Users.EveryUserOnAPage | FrontEnd/src/pages/admin/Users.jsx:164-167 | every filtered user appears on a page between the first and the page count |
| Users.ToggledStatus | FrontEnd/src/pages/admin/Users.jsx:107-113 | after a status toggle the users with that id have their active flag flipped and everyone else is unchanged |
| Users.ToggleTwice | FrontEnd/src/pages/admin/Users.jsx:107-113 | toggling the same user twice restores the list |
| Users.WithRole | FrontEnd/src/pages/admin/Users.jsx:120-126 | after a role change the users with that id have exactly the one new role and everyone else is unchanged |
| Users.RoleChangeShown | FrontEnd/src/pages/admin/Users.jsx:120-150 | after a role change the user is shown with the new role's rank |
| Users.WithoutUser | FrontEnd/src/pages/admin/Users.jsx:94-100 | a deletion removes every user with that id and keeps every other user, in order |
| Blogs.ToggledTag | FrontEnd/src/pages/admin/BlogsManagement.jsx:156-163 | after a toggle the tag is chosen exactly when it was not before; every other tag keeps its state |
| Blogs.ToggleTwice | FrontEnd/src/pages/admin/BlogsManagement.jsx:156-163 | toggling the same tag twice restores the set of chosen tags, and restores the list itself when the tag was not chosen |
| Blogs.ToggleKeepsDistinct | FrontEnd/src/pages/admin/BlogsManagement.jsx:156-163 | toggling never introduces a duplicate tag id |
| Blogs.CanSubmit | FrontEnd/src/pages/admin/BlogsManagement.jsx:203-206 | the form is submitted only when title, description and content each hold non-blank text |
| Blogs.WithoutBlog | FrontEnd/src/pages/admin/BlogsManagement.jsx:242-253 | after a delete exactly the posts with another id remain, in their order |
| Blogs.AnyMentions | FrontEnd/src/pages/admin/BlogsManagement.jsx:262 | `tags.some(...)`: true exactly when some tag's name contains the term, ignoring case |
| Blogs.FilteredBlogs | FrontEnd/src/pages/admin/BlogsManagement.jsx:258-263 | the filtered list keeps, in order, exactly the posts whose title, description, author name or some tag name contains the term, ignoring case |
| Blogs.TagNameFinds | FrontEnd/src/pages/admin/BlogsManagement.jsx:262 | a post with a tag whose name equals the term up to case is found |
| Blogs.EmptySearchListsEveryPost | FrontEnd/src/pages/admin/BlogsManagement.jsx:258-263 | the empty search term lists every post |
| Blogs.CurrentBlogsSpec | FrontEnd/src/pages/admin/BlogsManagement.jsx:266-268 | page p holds at most ten posts, the filtered posts from (p - 1)·10 on |
| Blogs.EveryPostOnAPage | FrontEnd/src/pages/admin/BlogsManagement.jsx:266-269 | every filtered post is shown on a page between 1 and totalPages |

## Left out

- Floating point is not modelled. Rates, averages and percentages are exact `Ratio` values (numerator and denominator), or truncated quotients where the source divides two integers. The double division and the `Math.round` to one decimal or to a whole number are not modelled, except where rounded values are summed again (the monthly values behind LifetimeValue.AverageMonthlyValue, rounded by Seqs.MathRound). The lines below name the members concerned.
- FunnelAnalysis.Funnel: the stage percentages are exact ratios; the rounding to one decimal is not modelled.
- LifetimeValue.MonthlyValue: the monthly value is the exact ratio totalSpent·30/days; the double and its rounding are not modelled.
- LifetimeValue.AverageClv: the average is the exact ratio; its rounding is not modelled.
- LifetimeValue.AverageMonthlyValue: the average is the exact mean of the rounded monthly values; the final Math.round of that mean is not modelled.
- CustomerRetention.GetCustomerRetention: the retention rate and average order count are exact ratios; their rounding is not modelled.
- CompletionRate.DaySummaryAsWritten: the completion and cancellation rates are exact ratios times 100; the rounding to one decimal is not modelled. The same holds for CompletionRate.DaySummary.
- Long and int overflow are not modelled: integers are unbounded. The one exception is the 32-bit wrap of `String.hashCode`, which is written out.
- Java's `HashMap` iteration order is modelled as the first-seen order of the keys. This applies to product performance, the product list, the status distribution, the category breakdown and customer grouping, where the source's order is unspecified.
- Dashboard.GetSalesChartData: the points are emitted in date order, one per day of the window; the source emits them in the iteration order of a `HashMap` keyed by the date string, which is unspecified, so the model fixes an order the source does not promise (the set of points and each day's amount are the same).
- Sorting is one insertion sort on sequences. It is proved sorted and a permutation, but its tie order is not claimed to match Java's or JavaScript's stable sort. String comparison is code-point order: `localeCompare` collation is not modelled.
- Case mapping (`toLowerCase`, `toUpperCase`) acts on ASCII letters only.
- Java's `@Size` counts UTF-16 code units, while the model counts characters. They agree on text without characters outside the Basic Multilingual Plane.
- The clock (`LocalDate.now`, `System.currentTimeMillis`, `Date.now`) and the time zone are parameters. Daylight-saving shifts inside a range are not modelled.
- The week pattern "yyyy-'W'ww" is not rendered: week keys are the Monday of the week (see SalesTrends.WeeklyPeriods below for where, and under which default locale, the rendered labels group differently).
- The random part of generated file names (`UUID.randomUUID`) is a parameter.
- Server calls, navigation, toasts, confirm dialogs, `console` logging, timers and the browser's `localStorage` are left out. Where a page's behaviour depends on a call's outcome, that outcome is a parameter.
- Mock and fallback data that handlers return after an exception are not modelled.
- Image upload, image compression (`compressImage`, `compressImages`, `isImageTooLarge`), preloading, retries, progressive loading and `debugCloudinaryLoading` are browser I/O and are not modelled.
- `processTimeSeriesData` and `createColorScale` in the analytics helpers are not modelled. The first only reshapes dates for a chart; the second computes colours from floating-point interpolation.
- OrderDebugger: only `analyzeOrderDetails` is modelled. `debugOrderDetails` and `formatProductInfo` only write to the console or format text for it.
- ProductAnalytics.GetProducts: a negative limit is a failure, standing for the exception that sends the handler to its mock data, which is not modelled.
- Pagination.GeneratePagination: that the bar is not drawn when there is at most one page is stated only as the predicate `Rendered`, which the bar's lemmas take as a precondition.
- AnalyticsOptimizer.OptimizeDataset: only the default `'sum'` aggregation is modelled; `'average'` divides in floating point. The default `maxDataPoints` of 50 is an explicit argument. The method requires `maxDataPoints > 0`: with 0 the source makes a single chunk of factor `Infinity`, and with a negative value it reads a field of an empty chunk and throws; neither is modelled.
- AnalyticsOptimizer.NumberOf: numbers are integers here, so some text that JavaScript's `Number` reads as a number is read as NaN. That covers exponents ("1e3"), the prefixes 0x, 0o and 0b ("0x10"), "Infinity" and fractions (".5", "1.5"). In the model such a cell is left out of the statistics and fails every range filter.
- AnalyticsOptimizer.Plus: a sum is rendered as text with its plain decimal digits. JavaScript switches to exponent notation from 1e21 on, and that is not modelled.
- OrderService.OrderStore.PlaceOrder: a failed placement leaves the store's id counters as they were. A database whose transaction rolls back may still have used up identity values, which is not modelled; ids are only required to be fresh.
- CachedFetch.CacheKey: dependencies are modelled as strings. The hook's `String(dep)` coercion of other values is not modelled: an object becomes "[object Object]" and an array its comma-joined elements.
- The thin repository-backed services and controllers (products, categories, tags, blogs and users on the server, and the activity feed's storage) are not part of this model.
- ProductAnalytics.GetOrderStatusDistribution: the percentage is the exact ratio count·100/n; the rounding to one decimal and the double division are not modelled.
- RfmAnalysis.AnalyzeRfm: the averages block (mean recency, frequency and monetary value rounded with Math.round) is not modelled, because it is floating-point arithmetic over the rows.
- The other native queries of OrderDetailRepository (top-selling products, average processing time, product performance trends, status distribution by date, customer retention trends, average time between orders) and the derived finders are not modelled; no modelled report reads them.
- SalesQueries.SalesByCategory: the query has no ORDER BY, so the database's row order is unspecified; the model lists categories in first-seen order.
- SalesTrends.WeeklyPeriods: a weekly key is modelled as the Monday of the order's week, not as the string the source renders with the pattern "yyyy-'W'ww". In getSalesTrends the pattern is applied to that Monday, so the orders of one Monday-to-Sunday week always share a label, and the model's groups differ from the rendered ones only at New Year (below). In getRevenue and getOrders the pattern is applied to the order date itself, so the week boundaries are those of the JVM's default locale: the model's Monday-to-Sunday groups match them only under a locale whose week starts on Monday. Under a Sunday-first locale such as en_US, Sunday 2024-03-10 renders the same label as Monday 2024-03-11, while the model keys it to Monday 2024-03-04, so one day of every week is grouped differently. Separately, the pattern pairs the calendar year ("yyyy") with the week-based week number ("ww"), so under every locale the rendered labels go wrong around New Year: Tuesday 2024-12-31 renders "2024-W01" while Thursday 2025-01-02, in the same week, renders "2025-W01" (one week split in two), and the Mondays 2024-01-01 and 2024-12-30 both render "2024-W01" (two weeks merged into one).
- SalesTrends.GetRevenue: the mock fallback on an exception (an unparsable date, say) is not modelled; dates arrive already parsed.
- SalesTrends.GetOrders: the echoed "dateRange" entry and the mock fallback are not modelled.
- SalesTrends.AggregateOrdersByTimePeriod: the summary average is the exact ratio, not the double the source divides to.
- The search page's category fetch, its loading flag and `handlePageChange` (which copies the parameters and sets "page") are not modelled; they only call the server or set one parameter.
- Search.OrderedSpec: the name sorts compare by code point, not by the locale collation of localeCompare, and the model's sort is not shown to be stable.
- SeasonalTrends.QuarterSummary: the average order value is the exact ratio, not Math.round of the double quotient.
- TimeAgo.MakeActivityResponse: the avatar, entity type, entity id and metadata fields are copied unchanged by the source and are not part of the model.
- UserGrowth.GetUserGrowth: the sort of the users by creation date is not modelled; every date in range before today is seeded, so the only key it could reorder is today, which is appended last in either order.
- The user list's server calls, its confirm dialog, its mock users and the three role-count tiles are not modelled.
- Users.SearchIgnoresCase: case is folded for ASCII letters only; JavaScript's toLowerCase also folds other scripts.

## Findings

Each row names the member that shows the behaviour as written, which the rest of the model keeps, and the corrected member that states the evidently intended rule.

| source | as written | input that shows it | evidently intended | confidence | as-written member | corrected member |
|---|---|---|---|---|---|---|
| BackEnd/src/main/java/com/naturegrain/controller/AdvancedAnalyticsController.java:398 | `year + "-Q" + (month - 1) / 3 + 1` is string concatenation, so the zero-based quarter index is followed by the digit 1 | January 2024 is labelled "2024-Q01" and May 2024 "2024-Q11" | the one-based quarter label "2024-Q1", "2024-Q2" | high; not executed | SeasonalTrends.QuarterKeyExample | SeasonalTrends.QuarterKeyNumbers |
| BackEnd/src/main/java/com/naturegrain/controller/AdvancedAnalyticsController.java:558 | the completion report counts status "CANCELED" as cancelled, while the cancel endpoint (OrderController.java:140) stores "CANCELLED" | an order cancelled through the API is never counted as cancelled | count the status the cancel flow stores | high; not executed | CompletionRate.CancelledCountMismatch | CompletionRate.DaySummary |
| FrontEnd/src/pages/CartPage.jsx:11 | the cart page's fee is free only for totals strictly above 500 000, while its hint (line 173) and the checkout page (CheckoutPage.jsx:38) say free from 500 000 | a cart worth exactly 500 000 is promised free shipping and charged 30 000 | free shipping from 500 000 on, as the hint and checkout say | high; not executed | CartPage.HintContradictsFeeAsWritten | CartPage.Shipping |
| FrontEnd/src/pages/auth/RegisterPage.jsx:47 | the page accepts any non-blank username of 4 or more characters, while the server's request (BackEnd/src/main/java/com/naturegrain/model/request/CreateUserRequest.java:23) requires 5 to 30 | the username "abcd" passes the page and is refused by the server | check 5 to 30 characters on the page too | high; not executed | Register.UsernameGapAsWritten | Register.UsernameError |
| BackEnd/src/main/java/com/naturegrain/service/CloudinaryService.java:153 | `afterUpload.substring(versionIndex + 1, afterUpload.lastIndexOf("."))` with no "." after the version calls substring with an end of -1 | ".../image/upload/v1/folder/file" (no format) makes the extractor throw `StringIndexOutOfBoundsException`, so the delete by URL fails | keep the whole path when there is no format, as the image controller's extractor does | medium; not executed | Cloudinary.ServicePublicIdThrows | Cloudinary.ServicePublicId |
