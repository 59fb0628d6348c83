/**
 * Registration cohorts (`AdvancedAnalyticsController.getUserCohortAnalysis`)
 * and the month arithmetic on "yyyy-MM" keys (`getMonthDifference`).
 *
 * Users with a registration date are grouped by registration month; for each
 * cohort, and for each month at or after it in which somebody registered, the
 * number of distinct cohort members who ordered in that month.  Month keys are
 * `YearMonth` values here; `FormatYearMonthOrder` (module Calendar) shows that
 * the string order the source sorts and compares by is their chronological order.
 */
module CohortAnalysis {
  import opened Seqs
  import opened Strings
  import opened Entities
  import opened Calendar

  predicate IsMonthKey(s: string)
  {
    |s| >= 7 && (forall i :: 0 <= i < 4 ==> IsDigit(s[i])) && IsDigit(s[5]) && IsDigit(s[6])
  }

  /** `getMonthDifference`: parses characters 0-3 as the year and 5-6 as the month. */
  function MonthDifference(month1: string, month2: string): (diff: int)
    requires IsMonthKey(month1) && IsMonthKey(month2)
  {
    (DigitsValue(month2[0..4]) - DigitsValue(month1[0..4])) * 12 +
    (DigitsValue(month2[5..7]) - DigitsValue(month1[5..7]))
  }

  /**
   * On rendered month keys the difference is the number of months between
   * them: 0 for the same month, and non-negative exactly when the second key
   * is not before the first in string order.
   */
  lemma MonthDifferenceOfKeys(a: YearMonth, b: YearMonth)
    requires ValidYearMonth(a) && ValidYearMonth(b)
    ensures IsMonthKey(FormatYearMonth(a)) && IsMonthKey(FormatYearMonth(b))
    ensures MonthDifference(FormatYearMonth(a), FormatYearMonth(b)) == MonthIndex(b) - MonthIndex(a)
    ensures a == b ==> MonthDifference(FormatYearMonth(a), FormatYearMonth(b)) == 0
    ensures MonthDifference(FormatYearMonth(a), FormatYearMonth(b)) >= 0 <==>
      !StrLess(FormatYearMonth(b), FormatYearMonth(a))
  {
    FormatYearMonthParts(a);
    FormatYearMonthParts(b);
    FormatYearMonthOrder(b, a);
  }

  datatype Retention = Retention(count: nat, rate: Ratio)

  datatype CohortRow = CohortRow(cohort: YearMonth, size: nat, retention: map<string, Retention>)

  function Registered(users: seq<User>): seq<User>
  {
    Filter(users, (u: User) => u.createAt.Some?)
  }

  function RegMonth(u: User): YearMonth
  {
    if u.createAt.Some? then MonthOf(DayOf(u.createAt.value)) else YearMonth(0, 0)
  }

  predicate MonthLe(a: YearMonth, b: YearMonth)
  {
    MonthIndex(a) <= MonthIndex(b)
  }

  /** The registration months, each once, in chronological order. */
  function SortedMonths(users: seq<User>): (months: seq<YearMonth>)
    ensures SortedBy(months, MonthLe)
    ensures multiset(months) == multiset(Keys(Registered(users), RegMonth))
  {
    SortBy(Keys(Registered(users), RegMonth), MonthLe)
  }

  function Cohort(users: seq<User>, reg: YearMonth): seq<User>
  {
    Filter(Registered(users), (u: User) => RegMonth(u) == reg)
  }

  function Ids(us: seq<User>): set<int>
  {
    set i | 0 <= i < |us| :: us[i].id
  }

  lemma {:induction false} IdsBound(us: seq<User>)
    ensures |Ids(us)| <= |us|
    decreases |us|
  {
    if |us| > 0 {
      var init := us[..|us| - 1];
      IdsBound(init);
      assert Ids(us) <= Ids(init) + {us[|us| - 1].id} by {
        forall x | x in Ids(us)
          ensures x in Ids(init) + {us[|us| - 1].id}
        {
          var i :| 0 <= i < |us| && us[i].id == x;
          if i < |init| {
            assert init[i].id == x;
          }
        }
      }
      SubsetCardinality(Ids(us), Ids(init) + {us[|us| - 1].id});
    }
  }

  /** Distinct cohort members with a dated order in the given month. */
  function ActiveUsers(orders: seq<Order>, cohortIds: set<int>, month: YearMonth): (active: set<int>)
    ensures active <= cohortIds
  {
    set i | 0 <= i < |orders| && orders[i].createAt.Some? && orders[i].user.Some? &&
            orders[i].user.value in cohortIds && MonthOf(DayOf(orders[i].createAt.value)) == month
          :: orders[i].user.value
  }

  /** The key "M" followed by the month offset. */
  function OffsetKey(reg: YearMonth, month: YearMonth): string
  {
    "M" + IntToString(MonthIndex(month) - MonthIndex(reg))
  }

  /** The retention map the inner loop builds over the sorted months. */
  function RetentionSpec(reg: YearMonth, months: seq<YearMonth>, orders: seq<Order>, cohort: seq<User>): map<string, Retention>
    decreases |months|
  {
    if |months| == 0 then map[]
    else
      var prev := RetentionSpec(reg, months[..|months| - 1], orders, cohort);
      var month := months[|months| - 1];
      if MonthIndex(month) < MonthIndex(reg) then prev
      else
        var active := |ActiveUsers(orders, Ids(cohort), month)|;
        prev[OffsetKey(reg, month) := Retention(active, Percent(active, |cohort|))]
  }

  /** Offsets are reported only for months at or after the cohort's month, and every count is at most the cohort size. */
  lemma {:induction false} RetentionShape(reg: YearMonth, months: seq<YearMonth>, orders: seq<Order>, cohort: seq<User>)
    ensures forall k :: k in RetentionSpec(reg, months, orders, cohort) <==>
      exists j :: 0 <= j < |months| && MonthIndex(months[j]) >= MonthIndex(reg) && k == OffsetKey(reg, months[j])
    ensures forall k :: k in RetentionSpec(reg, months, orders, cohort) ==>
      RetentionSpec(reg, months, orders, cohort)[k].count <= |cohort|
    decreases |months|
  {
    if |months| > 0 {
      var init := months[..|months| - 1];
      RetentionShape(reg, init, orders, cohort);
      assert forall j :: 0 <= j < |init| ==> init[j] == months[j];
      var month := months[|months| - 1];
      var ids := Ids(cohort);
      var active := ActiveUsers(orders, ids, month);
      SubsetCardinality(active, ids);
      IdsBound(cohort);
      var prev := RetentionSpec(reg, init, orders, cohort);
      if MonthIndex(month) >= MonthIndex(reg) {
        var m := prev[OffsetKey(reg, month) := Retention(|active|, Percent(|active|, |cohort|))];
        assert RetentionSpec(reg, months, orders, cohort) == m;
        forall k | k in m
          ensures m[k].count <= |cohort|
        {
          if k != OffsetKey(reg, month) {
            assert m[k] == prev[k];
          }
        }
      }
    }
  }

  /** The row of the cohort registered in reg, with an entry for each of months from reg on. */
  function CohortRowOf(users: seq<User>, orders: seq<Order>, months: seq<YearMonth>, reg: YearMonth): CohortRow
  {
    var cohort := Cohort(users, reg);
    CohortRow(reg, |cohort|, RetentionSpec(reg, months, orders, cohort))
  }

  /** The inner loop: one entry per month not before the cohort's month. */
  method ComputeRetention(reg: YearMonth, months: seq<YearMonth>, orders: seq<Order>, cohort: seq<User>)
    returns (retention: map<string, Retention>)
    ensures retention == RetentionSpec(reg, months, orders, cohort)
  {
    retention := map[];
    var cohortIds := Ids(cohort);
    for i := 0 to |months|
      invariant retention == RetentionSpec(reg, months[..i], orders, cohort)
    {
      assert months[..i + 1][..i] == months[..i];
      var month := months[i];
      if MonthIndex(month) < MonthIndex(reg) {
        continue;
      }
      var activeUsers := |ActiveUsers(orders, cohortIds, month)|;
      retention := retention[OffsetKey(reg, month) := Retention(activeUsers, Percent(activeUsers, |cohort|))];
    }
    assert months[..|months|] == months;
  }

  /** One row per registration month in regs, each with entries for the months of months. */
  function CohortRows(users: seq<User>, orders: seq<Order>, months: seq<YearMonth>, regs: seq<YearMonth>): (rows: seq<CohortRow>)
    ensures |rows| == |regs|
    decreases |regs|
  {
    if |regs| == 0 then []
    else CohortRows(users, orders, months, regs[..|regs| - 1]) + [CohortRowOf(users, orders, months, regs[|regs| - 1])]
  }

  /** Row k is the row of the k-th registration month. */
  lemma {:induction false} CohortRowsAt(users: seq<User>, orders: seq<Order>, months: seq<YearMonth>, regs: seq<YearMonth>, k: int)
    requires 0 <= k < |regs|
    ensures CohortRows(users, orders, months, regs)[k] == CohortRowOf(users, orders, months, regs[k])
    decreases |regs|
  {
    if k < |regs| - 1 {
      CohortRowsAt(users, orders, months, regs[..|regs| - 1], k);
    }
  }

  /** The body of the outer loop: the cohort of one registration month and its retention entries. */
  method CohortRowFor(users: seq<User>, orders: seq<Order>, months: seq<YearMonth>, registrationMonth: YearMonth)
    returns (row: CohortRow)
    ensures row == CohortRowOf(users, orders, months, registrationMonth)
  {
    var cohort := Cohort(users, registrationMonth);
    var retention := ComputeRetention(registrationMonth, months, orders, cohort);
    row := CohortRow(registrationMonth, |cohort|, retention);
  }

  /** `getUserCohortAnalysis`: one row per registration month, in chronological order. */
  method AnalyzeCohorts(users: seq<User>, orders: seq<Order>) returns (rows: seq<CohortRow>)
    ensures var months := SortedMonths(users);
      rows == CohortRows(users, orders, months, months)
  {
    var sortedMonths := SortedMonths(users);
    rows := RowsForMonths(users, orders, sortedMonths);
  }

  /** The outer loop over the sorted registration months. */
  method RowsForMonths(users: seq<User>, orders: seq<Order>, sortedMonths: seq<YearMonth>) returns (rows: seq<CohortRow>)
    ensures rows == CohortRows(users, orders, sortedMonths, sortedMonths)
  {
    rows := [];
    for i := 0 to |sortedMonths|
      invariant rows == CohortRows(users, orders, sortedMonths, sortedMonths[..i])
    {
      var row := CohortRowFor(users, orders, sortedMonths, sortedMonths[i]);
      assert sortedMonths[..i + 1][..i] == sortedMonths[..i];
      rows := rows + [row];
    }
    assert sortedMonths[..|sortedMonths|] == sortedMonths;
  }

  /** The sorted months are exactly the registration months. */
  lemma SortedMonthsAreKeys(users: seq<User>, reg: YearMonth)
    ensures reg in SortedMonths(users) <==> reg in Keys(Registered(users), RegMonth)
  {
    var sorted := SortedMonths(users);
    assert reg in sorted <==> reg in multiset(sorted);
  }

  /** A cohort holds exactly the dated users registered in its month. */
  lemma CohortMembership(users: seq<User>, reg: YearMonth)
    ensures forall u :: u in Cohort(users, reg) <==> u in users && u.createAt.Some? && RegMonth(u) == reg
  {
  }

  /** The cohort of a month in which somebody registered is not empty. */
  lemma CohortNonEmpty(users: seq<User>, reg: YearMonth)
    requires reg in Keys(Registered(users), RegMonth)
    ensures |Cohort(users, reg)| > 0
  {
    var regs := Registered(users);
    var i :| 0 <= i < |regs| && RegMonth(regs[i]) == reg;
    var u := regs[i];
    assert u in regs;
    CohortMembership(users, reg);
    assert u in Cohort(users, reg);
  }

  /** Every listed cohort is non-empty, and holds exactly the dated users registered in its month. */
  lemma CohortMembers(users: seq<User>, reg: YearMonth)
    requires reg in SortedMonths(users)
    ensures |Cohort(users, reg)| > 0
    ensures forall u :: u in Cohort(users, reg) <==> u in users && u.createAt.Some? && RegMonth(u) == reg
  {
    SortedMonthsAreKeys(users, reg);
    CohortNonEmpty(users, reg);
    CohortMembership(users, reg);
  }
}
