/**
 * Registrations over time (`AnalyticsController.getUserGrowth`) and the
 * customer figures of `getCustomers`.
 *
 * `getUserGrowth` seeds an insertion-ordered map with the `days` dates from
 * today − days up to yesterday, counts the registrations of every date from
 * today − days to today into it, and walks the map adding a running total
 * that starts from the users registered before the first date.  Today is
 * not among the seeded dates, so a registration today appends one more key.
 */
module UserGrowth {
  import opened Seqs
  import opened Entities
  import opened Calendar

  predicate RegisteredOn(u: User, day: int)
  {
    u.createAt.Some? && DayOf(u.createAt.value) == day
  }

  /** Users registered on the given day. */
  function NewUsersOn(users: seq<User>, day: int): (n: nat)
    ensures n <= |users|
    ensures n == 0 <==> forall i :: 0 <= i < |users| ==> !RegisteredOn(users[i], day)
    decreases |users|
  {
    if |users| == 0 then 0
    else
      var init := users[..|users| - 1];
      assert forall i :: 0 <= i < |init| ==> init[i] == users[i];
      NewUsersOn(init, day) + (if RegisteredOn(users[|users| - 1], day) then 1 else 0)
  }

  /** Users registered on a day from first to last, both included. */
  function RegisteredBetween(users: seq<User>, first: int, last: int): nat
    decreases |users|
  {
    if |users| == 0 then 0
    else
      var u := users[|users| - 1];
      RegisteredBetween(users[..|users| - 1], first, last) +
      (if u.createAt.Some? && first <= DayOf(u.createAt.value) <= last then 1 else 0)
  }

  /** Users registered before the given day. */
  function RegisteredBefore(users: seq<User>, day: int): nat
    decreases |users|
  {
    if |users| == 0 then 0
    else
      var u := users[|users| - 1];
      RegisteredBefore(users[..|users| - 1], day) + (if u.createAt.Some? && DayOf(u.createAt.value) < day then 1 else 0)
  }

  /** A range of days splits into its last day and the rest. */
  lemma {:induction false} BetweenSplitLast(users: seq<User>, first: int, last: int)
    requires first <= last
    ensures RegisteredBetween(users, first, last) == RegisteredBetween(users, first, last - 1) + NewUsersOn(users, last)
    decreases |users|
  {
    if |users| > 0 {
      BetweenSplitLast(users[..|users| - 1], first, last);
    }
  }

  /** The users registered before a range plus those registered in it are those registered before the day after it. */
  lemma {:induction false} BeforeSplit(users: seq<User>, first: int, last: int)
    requires first <= last + 1
    ensures RegisteredBefore(users, first) + RegisteredBetween(users, first, last) == RegisteredBefore(users, last + 1)
    decreases |users|
  {
    if |users| > 0 {
      BeforeSplit(users[..|users| - 1], first, last);
    }
  }

  /** Σ of the registrations on each listed date. */
  function NewUsersOver(users: seq<User>, dates: seq<int>): int
    decreases |dates|
  {
    if |dates| == 0 then 0 else NewUsersOver(users, dates[..|dates| - 1]) + NewUsersOn(users, dates[|dates| - 1])
  }

  /** The seeded dates: n consecutive days from first. */
  function Skeleton(first: int, n: nat): (dates: seq<int>)
    ensures |dates| == n
    ensures forall i :: 0 <= i < n ==> dates[i] == first + i
  {
    seq(n, i => first + i)
  }

  lemma {:induction false} SkeletonSum(users: seq<User>, first: int, n: nat)
    ensures NewUsersOver(users, Skeleton(first, n)) == RegisteredBetween(users, first, first + n - 1)
    decreases n
  {
    if n == 0 {
      EmptyBetween(users, first, first - 1);
    } else {
      assert Skeleton(first, n)[..n - 1] == Skeleton(first, n - 1);
      SkeletonSum(users, first, n - 1);
      BetweenSplitLast(users, first, first + n - 1);
    }
  }

  lemma {:induction false} EmptyBetween(users: seq<User>, first: int, last: int)
    requires last < first
    ensures RegisteredBetween(users, first, last) == 0
    decreases |users|
  {
    if |users| > 0 {
      EmptyBetween(users[..|users| - 1], first, last);
    }
  }

  /** The dates the report lists: the seeded ones, then today if somebody registered today. */
  function GrowthDays(users: seq<User>, today: int, days: int): seq<int>
  {
    Skeleton(today - days, if days > 0 then days else 0) +
    (if days >= 0 && NewUsersOn(users, today) > 0 then [today] else [])
  }

  datatype GrowthPoint = GrowthPoint(date: int, newUsers: nat, totalUsers: int)

  /** The i-th point: that date's registrations and the running total up to it. */
  function GrowthPointAt(users: seq<User>, dates: seq<int>, base: int, i: int): GrowthPoint
    requires 0 <= i < |dates|
  {
    GrowthPoint(dates[i], NewUsersOn(users, dates[i]), base + NewUsersOver(users, dates[..i + 1]))
  }

  /**
   * The listed dates are consecutive days starting at today − days, one per
   * requested day, plus a trailing today exactly when somebody registered today.
   */
  lemma GrowthDaysShape(users: seq<User>, today: int, days: int)
    requires days >= 0
    ensures var dates := GrowthDays(users, today, days);
      |dates| == days + (if NewUsersOn(users, today) > 0 then 1 else 0) &&
      (forall i :: 0 <= i < |dates| ==> dates[i] == today - days + i) &&
      (today in dates <==> NewUsersOn(users, today) > 0)
  {
  }

  /** The running total never decreases along the series. */
  lemma {:induction false} GrowthTotalsMonotone(users: seq<User>, dates: seq<int>, base: int, i: int, j: int)
    requires 0 <= i <= j < |dates|
    ensures GrowthPointAt(users, dates, base, i).totalUsers <= GrowthPointAt(users, dates, base, j).totalUsers
    decreases j - i
  {
    if i < j {
      GrowthTotalsMonotone(users, dates, base, i, j - 1);
      assert dates[..j + 1][..j] == dates[..j];
    }
  }

  /** With days ≥ 0 the last total is the number of users registered up to and including today. */
  lemma GrowthFinalTotal(users: seq<User>, today: int, days: int)
    requires days > 0 || NewUsersOn(users, today) > 0
    requires days >= 0
    ensures var dates := GrowthDays(users, today, days);
      |dates| > 0 &&
      GrowthPointAt(users, dates, RegisteredBefore(users, today - days), |dates| - 1).totalUsers == RegisteredBefore(users, today + 1)
  {
    var dates := GrowthDays(users, today, days);
    var sk := Skeleton(today - days, days);
    SkeletonSum(users, today - days, days);
    BetweenSplitLast(users, today - days, today);
    BeforeSplit(users, today - days, today);
    assert dates[..|dates|] == dates;
    if NewUsersOn(users, today) > 0 {
      assert dates == sk + [today];
      assert dates[..|dates| - 1] == sk;
    } else {
      assert dates == sk;
    }
  }

  /** The seeding loop: `days` dates, each with 0 registrations. */
  method SeedDays(first: int, n: nat) returns (dates: seq<int>, dailyGrowth: map<int, nat>)
    ensures dates == Skeleton(first, n)
    ensures forall d :: d in dailyGrowth <==> d in dates
    ensures forall d :: d in dailyGrowth ==> dailyGrowth[d] == 0
  {
    dates := [];
    dailyGrowth := map[];
    for i := 0 to n
      invariant dates == Skeleton(first, i)
      invariant forall d :: d in dailyGrowth <==> d in dates
      invariant forall d :: d in dailyGrowth ==> dailyGrowth[d] == 0
    {
      dates := dates + [first + i];
      dailyGrowth := dailyGrowth[first + i := 0];
    }
  }

  /** Reading one more user adds one to the count of its registration date and changes no other. */
  lemma NewUsersStep(users: seq<User>, i: int)
    requires 0 <= i < |users|
    ensures forall d :: NewUsersOn(users[..i + 1], d) == NewUsersOn(users[..i], d) + (if RegisteredOn(users[i], d) then 1 else 0)
  {
    assert users[..i + 1][..i] == users[..i];
  }

  /** Reading one more user appends today exactly when it is the first registration of today. */
  lemma GrowthDaysStep(users: seq<User>, i: int, today: int, days: int)
    requires 0 <= i < |users|
    ensures GrowthDays(users[..i + 1], today, days) ==
      if days >= 0 && RegisteredOn(users[i], today) && NewUsersOn(users[..i], today) == 0
      then GrowthDays(users[..i], today, days) + [today]
      else GrowthDays(users[..i], today, days)
  {
    NewUsersStep(users, i);
  }

  /** The listed dates lie in [today − days, today], and every date of that range before today is listed. */
  lemma GrowthDaysRange(users: seq<User>, today: int, days: int)
    ensures forall d :: d in GrowthDays(users, today, days) ==> today - days <= d <= today
    ensures forall d :: today - days <= d < today ==> d in GrowthDays(users, today, days)
  {
    var start := today - days;
    var n := if days > 0 then days else 0;
    var dates := GrowthDays(users, today, days);
    forall d | d in dates
      ensures start <= d <= today
    {
      var j :| 0 <= j < |dates| && dates[j] == d;
      if j < n {
        assert Skeleton(start, n)[j] == start + j;
      }
    }
    forall d | start <= d < today
      ensures d in dates
    {
      assert dates[d - start] == Skeleton(start, n)[d - start] == d;
    }
  }

  /** Counting a registration dated r in range keeps every listed date's count, and appends r only when it is today's first. */
  lemma DailyCounted(users: seq<User>, i: int, today: int, days: int, m: map<int, nat>, r: int)
    requires 0 <= i < |users|
    requires forall d :: d in m <==> d in GrowthDays(users[..i], today, days)
    requires forall d :: d in m ==> m[d] == NewUsersOn(users[..i], d)
    requires users[i].createAt.Some? && DayOf(users[i].createAt.value) == r && today - days <= r <= today
    ensures var next := m[r := (if r in m then m[r] else 0) + 1];
      forall d :: d in next ==> next[d] == NewUsersOn(users[..i + 1], d)
    ensures GrowthDays(users[..i + 1], today, days) ==
      if r in m then GrowthDays(users[..i], today, days) else GrowthDays(users[..i], today, days) + [r]
  {
    NewUsersStep(users, i);
    GrowthDaysStep(users, i, today, days);
    GrowthDaysRange(users[..i], today, days);
  }

  /** A user registered on no date in range changes neither the counts nor the dates. */
  lemma DailySkipped(users: seq<User>, i: int, today: int, days: int, m: map<int, nat>)
    requires 0 <= i < |users|
    requires forall d :: d in m <==> d in GrowthDays(users[..i], today, days)
    requires forall d :: d in m ==> m[d] == NewUsersOn(users[..i], d)
    requires !(users[i].createAt.Some? && today - days <= DayOf(users[i].createAt.value) <= today)
    ensures forall d :: d in m ==> m[d] == NewUsersOn(users[..i + 1], d)
    ensures GrowthDays(users[..i + 1], today, days) == GrowthDays(users[..i], today, days)
  {
    NewUsersStep(users, i);
    GrowthDaysStep(users, i, today, days);
    GrowthDaysRange(users[..i], today, days);
  }

  /** The counting loop: every registration in [first, today] is added to its date's entry, appending today's when new. */
  method CountRegistrations(users: seq<User>, today: int, days: int, dates0: seq<int>, daily0: map<int, nat>)
    returns (dates: seq<int>, dailyGrowth: map<int, nat>)
    requires dates0 == Skeleton(today - days, if days > 0 then days else 0)
    requires forall d :: d in daily0 <==> d in dates0
    requires forall d :: d in daily0 ==> daily0[d] == 0
    ensures dates == GrowthDays(users, today, days)
    ensures forall d :: d in dailyGrowth <==> d in dates
    ensures forall d :: d in dailyGrowth ==> dailyGrowth[d] == NewUsersOn(users, d)
  {
    var startDate := today - days;
    dates := dates0;
    dailyGrowth := daily0;
    for i := 0 to |users|
      invariant dates == GrowthDays(users[..i], today, days)
      invariant forall d :: d in dailyGrowth <==> d in dates
      invariant forall d :: d in dailyGrowth ==> dailyGrowth[d] == NewUsersOn(users[..i], d)
    {
      var user := users[i];
      if user.createAt.Some? && startDate <= DayOf(user.createAt.value) <= today {
        var registrationDate := DayOf(user.createAt.value);
        DailyCounted(users, i, today, days, dailyGrowth, registrationDate);
        var count := 0;
        if registrationDate in dailyGrowth {
          count := dailyGrowth[registrationDate];
        } else {
          dates := dates + [registrationDate];
        }
        dailyGrowth := dailyGrowth[registrationDate := count + 1];
      } else {
        DailySkipped(users, i, today, days, dailyGrowth);
      }
    }
    assert users[..|users|] == users;
  }

  /** The last loop: each date's registrations and the running total, seeded with the earlier registrations. */
  method Cumulate(users: seq<User>, dates: seq<int>, dailyGrowth: map<int, nat>, base: int) returns (points: seq<GrowthPoint>)
    requires forall d :: d in dates ==> d in dailyGrowth
    requires forall d :: d in dailyGrowth ==> dailyGrowth[d] == NewUsersOn(users, d)
    ensures |points| == |dates|
    ensures forall i :: 0 <= i < |dates| ==> points[i] == GrowthPointAt(users, dates, base, i)
  {
    points := [];
    var cumulativeUsers := base;
    for j := 0 to |dates|
      invariant |points| == j
      invariant cumulativeUsers == base + NewUsersOver(users, dates[..j])
      invariant forall i :: 0 <= i < j ==> points[i] == GrowthPointAt(users, dates, base, i)
    {
      assert dates[..j + 1][..j] == dates[..j];
      var date := dates[j];
      assert date in dates;
      assert date in dailyGrowth;
      var newUsers := dailyGrowth[date];
      cumulativeUsers := cumulativeUsers + newUsers;
      points := points + [GrowthPoint(date, newUsers, cumulativeUsers)];
    }
  }

  /** `getUserGrowth`: the series over `GrowthDays`, with totals counted from the users registered before its first date. */
  method GetUserGrowth(users: seq<User>, today: int, days: int) returns (points: seq<GrowthPoint>)
    ensures var dates := GrowthDays(users, today, days);
      |points| == |dates| &&
      forall i :: 0 <= i < |dates| ==> points[i] == GrowthPointAt(users, dates, RegisteredBefore(users, today - days), i)
  {
    var startDate := today - days;
    var seeded, zeroes := SeedDays(startDate, if days > 0 then days else 0);
    var dates, dailyGrowth := CountRegistrations(users, today, days, seeded, zeroes);
    points := Cumulate(users, dates, dailyGrowth, RegisteredBefore(users, startDate));
  }
}
