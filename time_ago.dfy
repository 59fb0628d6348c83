/**
 * The "time ago" labels of the activity feed.  Two versions exist:
 * `AnalyticsController.calculateTimeAgo` compares the millisecond difference
 * against fixed thresholds and switches to months after 30 days, while
 * `ActivityResponse.calculateTimeAgo` divides the difference down to
 * seconds, minutes, hours and days and reports the first positive unit, so
 * its day count is unbounded.  The clock is a parameter `now`.
 */
module TimeAgo {
  import opened Seqs
  import opened Strings

  const MillisPerMinute: int := 60000
  const MillisPerHour: int := 3600000
  const MillisPerDay: int := 86400000
  const MillisPerMonth: int := 2592000000

  /** A label before rendering: the unit and its count. */
  datatype Ago = JustNow | Minutes(n: nat) | Hours(n: nat) | Days(n: nat) | Months(n: nat)

  /** The Vietnamese label text. */
  function Render(a: Ago): string
  {
    match a
    case JustNow => "Vừa xong"
    case Minutes(n) => NatToString(n) + " phút trước"
    case Hours(n) => NatToString(n) + " giờ trước"
    case Days(n) => NatToString(n) + " ngày trước"
    case Months(n) => NatToString(n) + " tháng trước"
  }

  /** The unit words that follow the count. */
  function UnitWords(a: Ago): string
  {
    match a
    case JustNow => ""
    case Minutes(_) => " phút trước"
    case Hours(_) => " giờ trước"
    case Days(_) => " ngày trước"
    case Months(_) => " tháng trước"
  }

  /** A counted label is the count's digits followed by a space and the unit words. */
  lemma RenderParts(a: Ago)
    requires a != JustNow
    ensures Render(a) == NatToString(a.n) + UnitWords(a)
    ensures forall i :: 0 <= i < |NatToString(a.n)| ==> IsDigit(Render(a)[i])
    ensures Render(a)[|NatToString(a.n)|] == ' '
  {
  }

  /** The count and unit can be read back from a label: rendering loses nothing. */
  lemma RenderInjective(a: Ago, b: Ago)
    requires Render(a) == Render(b)
    ensures a == b
  {
    if a != JustNow && b != JustNow {
      RenderParts(a);
      RenderParts(b);
      var da := NatToString(a.n);
      var db := NatToString(b.n);
      assert |da| == |db|;
      assert da == Render(a)[..|da|];
      assert db == Render(b)[..|db|];
      NatToStringValue(a.n);
      NatToStringValue(b.n);
      assert UnitWords(a) == Render(a)[|da|..];
      assert UnitWords(b) == Render(b)[|db|..];
    } else if a != JustNow || b != JustNow {
      var c := if a != JustNow then a else b;
      RenderParts(c);
    }
  }

  /**
   * `AnalyticsController.calculateTimeAgo(timestamp)`: a strict threshold
   * chain on `now - timestamp`, each count an integer quotient.  A
   * difference under a minute, including a timestamp in the future, is
   * "just now".
   */
  function AnalyticsTimeAgo(timestamp: int, now: int): (a: Ago)
    ensures var diff := now - timestamp;
      (a == JustNow <==> diff < MillisPerMinute) &&
      (a.Minutes? ==> 1 <= a.n < 60 && a.n * MillisPerMinute <= diff < (a.n + 1) * MillisPerMinute) &&
      (a.Hours? ==> 1 <= a.n < 24 && a.n * MillisPerHour <= diff < (a.n + 1) * MillisPerHour) &&
      (a.Days? ==> 1 <= a.n < 30 && a.n * MillisPerDay <= diff < (a.n + 1) * MillisPerDay) &&
      (a.Months? ==> 1 <= a.n && a.n * MillisPerMonth <= diff < (a.n + 1) * MillisPerMonth)
  {
    var diff := now - timestamp;
    if diff < MillisPerMinute then JustNow
    else if diff < MillisPerHour then Minutes(diff / MillisPerMinute)
    else if diff < MillisPerDay then Hours(diff / MillisPerHour)
    else if diff < MillisPerMonth then Days(diff / MillisPerDay)
    else Months(diff / MillisPerMonth)
  }

  /**
   * `ActivityResponse.calculateTimeAgo(createdAt)`: "" without a date;
   * otherwise the difference truncated to seconds, minutes, hours and days
   * (Java `/`, toward zero), and the first positive unit among days, hours
   * and minutes.
   */
  function ActivityTimeAgo(createdAt: Option<int>, now: int): (r: Option<Ago>)
    ensures createdAt.None? <==> r.None?
  {
    match createdAt
    case None => None
    case Some(t) =>
      var diffInMillis := now - t;
      var diffInSeconds := Quot(diffInMillis, 1000);
      var diffInMinutes := Quot(diffInSeconds, 60);
      var diffInHours := Quot(diffInMinutes, 60);
      var diffInDays := Quot(diffInHours, 24);
      if diffInDays > 0 then Some(Days(diffInDays))
      else if diffInHours > 0 then Some(Hours(diffInHours))
      else if diffInMinutes > 0 then Some(Minutes(diffInMinutes))
      else Some(JustNow)
  }

  /** The label text of an activity: "" when it has no date. */
  function ActivityTimeAgoText(createdAt: Option<int>, now: int): (s: string)
    ensures createdAt.None? ==> s == ""
    ensures createdAt.Some? ==> s == Render(ActivityTimeAgo(createdAt, now).value)
  {
    match ActivityTimeAgo(createdAt, now)
    case None => ""
    case Some(a) => Render(a)
  }

  /** Dividing step by step toward zero is dividing once, for a non-negative difference. */
  lemma NestedQuotients(diff: int)
    requires diff >= 0
    ensures Quot(diff, 1000) == diff / 1000
    ensures Quot(Quot(diff, 1000), 60) == diff / MillisPerMinute
    ensures Quot(Quot(Quot(diff, 1000), 60), 60) == diff / MillisPerHour
    ensures Quot(Quot(Quot(Quot(diff, 1000), 60), 60), 24) == diff / MillisPerDay
  {
    var s := diff / 1000;
    var m := s / 60;
    var h := m / 60;
    assert m == diff / MillisPerMinute;
    assert h == diff / MillisPerHour;
    assert h / 24 == diff / MillisPerDay;
  }

  /**
   * The activity label takes the first positive unit: whole days when the
   * difference reaches a day (with no upper bound), else hours, else
   * minutes, else "just now" -- which covers every future timestamp.
   */
  lemma ActivityTimeAgoUnits(t: int, now: int)
    ensures var diff := now - t;
      var a := ActivityTimeAgo(Some(t), now).value;
      (a == JustNow <==> diff < MillisPerMinute) &&
      (diff >= MillisPerDay ==> a == Days(diff / MillisPerDay)) &&
      (MillisPerHour <= diff < MillisPerDay ==> a == Hours(diff / MillisPerHour)) &&
      (MillisPerMinute <= diff < MillisPerHour ==> a == Minutes(diff / MillisPerMinute))
  {
    var diff := now - t;
    if diff >= 0 {
      NestedQuotients(diff);
    } else {
      assert Quot(diff, 1000) <= 0;
      assert Quot(Quot(diff, 1000), 60) <= 0;
    }
  }

  /**
   * The two versions agree below 30 days and part ways after: from 30 days
   * on, the controller counts months while the activity record keeps
   * counting days.
   */
  lemma TimeAgoVersionsAgree(t: int, now: int)
    ensures now - t < MillisPerMonth ==> AnalyticsTimeAgo(t, now) == ActivityTimeAgo(Some(t), now).value
    ensures now - t >= MillisPerMonth ==> AnalyticsTimeAgo(t, now).Months? && ActivityTimeAgo(Some(t), now).value.Days?
  {
    ActivityTimeAgoUnits(t, now);
  }

  lemma FortyFiveDaysExample()
    ensures ActivityTimeAgo(Some(0), 45 * MillisPerDay) == Some(Days(45))
    ensures AnalyticsTimeAgo(0, 45 * MillisPerDay) == Months(1)
  {
    ActivityTimeAgoUnits(0, 45 * MillisPerDay);
  }

  // ---- ActivityType ---------------------------------------------------------

  datatype ActivityType =
    | OrderCreated | OrderUpdated | OrderCancelled | OrderCompleted
    | ProductCreated | ProductUpdated | ProductDeleted
    | UserRegistered | UserLogin | UserUpdated
    | BlogCreated | BlogUpdated | BlogDeleted
    | CategoryCreated | CategoryUpdated | CategoryDeleted
    | SystemMaintenance | SystemBackup | AdminAction

  /** `name()`: the constant's identifier. */
  function Name(t: ActivityType): string
  {
    match t
    case OrderCreated => "ORDER_CREATED"
    case OrderUpdated => "ORDER_UPDATED"
    case OrderCancelled => "ORDER_CANCELLED"
    case OrderCompleted => "ORDER_COMPLETED"
    case ProductCreated => "PRODUCT_CREATED"
    case ProductUpdated => "PRODUCT_UPDATED"
    case ProductDeleted => "PRODUCT_DELETED"
    case UserRegistered => "USER_REGISTERED"
    case UserLogin => "USER_LOGIN"
    case UserUpdated => "USER_UPDATED"
    case BlogCreated => "BLOG_CREATED"
    case BlogUpdated => "BLOG_UPDATED"
    case BlogDeleted => "BLOG_DELETED"
    case CategoryCreated => "CATEGORY_CREATED"
    case CategoryUpdated => "CATEGORY_UPDATED"
    case CategoryDeleted => "CATEGORY_DELETED"
    case SystemMaintenance => "SYSTEM_MAINTENANCE"
    case SystemBackup => "SYSTEM_BACKUP"
    case AdminAction => "ADMIN_ACTION"
  }

  /** `getDisplayName()`: the Vietnamese caption. */
  function DisplayName(t: ActivityType): string
  {
    match t
    case OrderCreated => "Đơn hàng mới"
    case OrderUpdated => "Cập nhật đơn hàng"
    case OrderCancelled => "Hủy đơn hàng"
    case OrderCompleted => "Hoàn thành đơn hàng"
    case ProductCreated => "Sản phẩm mới"
    case ProductUpdated => "Cập nhật sản phẩm"
    case ProductDeleted => "Xóa sản phẩm"
    case UserRegistered => "Đăng ký thành viên"
    case UserLogin => "Đăng nhập"
    case UserUpdated => "Cập nhật thông tin"
    case BlogCreated => "Bài viết mới"
    case BlogUpdated => "Cập nhật bài viết"
    case BlogDeleted => "Xóa bài viết"
    case CategoryCreated => "Danh mục mới"
    case CategoryUpdated => "Cập nhật danh mục"
    case CategoryDeleted => "Xóa danh mục"
    case SystemMaintenance => "Bảo trì hệ thống"
    case SystemBackup => "Sao lưu dữ liệu"
    case AdminAction => "Thao tác quản trị"
  }

  /** `ActivityType.valueOf`: the constant with that identifier, if any. */
  function ValueOf(name: string): (t: Option<ActivityType>)
    ensures t.Some? ==> Name(t.value) == name
  {
    if name == "ORDER_CREATED" then Some(OrderCreated)
    else if name == "ORDER_UPDATED" then Some(OrderUpdated)
    else if name == "ORDER_CANCELLED" then Some(OrderCancelled)
    else if name == "ORDER_COMPLETED" then Some(OrderCompleted)
    else if name == "PRODUCT_CREATED" then Some(ProductCreated)
    else if name == "PRODUCT_UPDATED" then Some(ProductUpdated)
    else if name == "PRODUCT_DELETED" then Some(ProductDeleted)
    else if name == "USER_REGISTERED" then Some(UserRegistered)
    else if name == "USER_LOGIN" then Some(UserLogin)
    else if name == "USER_UPDATED" then Some(UserUpdated)
    else if name == "BLOG_CREATED" then Some(BlogCreated)
    else if name == "BLOG_UPDATED" then Some(BlogUpdated)
    else if name == "BLOG_DELETED" then Some(BlogDeleted)
    else if name == "CATEGORY_CREATED" then Some(CategoryCreated)
    else if name == "CATEGORY_UPDATED" then Some(CategoryUpdated)
    else if name == "CATEGORY_DELETED" then Some(CategoryDeleted)
    else if name == "SYSTEM_MAINTENANCE" then Some(SystemMaintenance)
    else if name == "SYSTEM_BACKUP" then Some(SystemBackup)
    else if name == "ADMIN_ACTION" then Some(AdminAction)
    else None
  }

  /** Every constant is found again from its identifier, so identifiers are distinct. */
  lemma NameRoundTrip(t: ActivityType)
    ensures ValueOf(Name(t)) == Some(t)
  {
    if t == OrderCreated || t == OrderUpdated || t == OrderCancelled || t == OrderCompleted {
      NameRoundTripOrders(t);
    } else if t == ProductCreated || t == ProductUpdated || t == ProductDeleted {
      NameRoundTripProducts(t);
    } else if t == UserRegistered || t == UserLogin || t == UserUpdated {
      NameRoundTripUsers(t);
    } else if t == BlogCreated || t == BlogUpdated || t == BlogDeleted {
      NameRoundTripBlogs(t);
    } else if t == CategoryCreated || t == CategoryUpdated || t == CategoryDeleted {
      NameRoundTripCategories(t);
    } else if t == SystemMaintenance || t == SystemBackup {
      NameRoundTripSystem(t);
    } else {
      NameRoundTripAdmin(t);
    }
  }

  lemma NameRoundTripOrders(t: ActivityType)
    requires t == OrderCreated || t == OrderUpdated || t == OrderCancelled || t == OrderCompleted
    ensures ValueOf(Name(t)) == Some(t)
  {
  }

  lemma NameRoundTripProducts(t: ActivityType)
    requires t == ProductCreated || t == ProductUpdated || t == ProductDeleted
    ensures ValueOf(Name(t)) == Some(t)
  {
  }

  lemma NameRoundTripUsers(t: ActivityType)
    requires t == UserRegistered || t == UserLogin || t == UserUpdated
    ensures ValueOf(Name(t)) == Some(t)
  {
  }

  lemma NameRoundTripBlogs(t: ActivityType)
    requires t == BlogCreated || t == BlogUpdated || t == BlogDeleted
    ensures ValueOf(Name(t)) == Some(t)
  {
  }

  lemma NameRoundTripCategories(t: ActivityType)
    requires t == CategoryCreated || t == CategoryUpdated || t == CategoryDeleted
    ensures ValueOf(Name(t)) == Some(t)
  {
  }

  lemma NameRoundTripSystem(t: ActivityType)
    requires t == SystemMaintenance || t == SystemBackup
    ensures ValueOf(Name(t)) == Some(t)
  {
  }

  lemma NameRoundTripAdmin(t: ActivityType)
    requires t == AdminAction
    ensures ValueOf(Name(t)) == Some(t)
  {
  }

  /** The record built from an activity (`ActivityResponse`'s entity constructor). */
  datatype ActivityResponse = ActivityResponse(
    id: int,
    activityType: string,
    activityTypeDisplay: string,
    title: string,
    description: string,
    userName: string,
    createdAt: Option<int>,
    timeAgo: string)

  /** The type is stored by identifier and caption; the label is computed from the date at `now`. */
  function MakeActivityResponse(id: int, t: ActivityType, title: string, description: string, userName: string,
                                createdAt: Option<int>, now: int): (r: ActivityResponse)
    ensures ValueOf(r.activityType) == Some(t)
    ensures r.activityTypeDisplay == DisplayName(t)
    ensures r.timeAgo == ActivityTimeAgoText(createdAt, now)
    ensures r.createdAt == createdAt
  {
    NameRoundTrip(t);
    ActivityResponse(id, Name(t), DisplayName(t), title, description, userName, createdAt, ActivityTimeAgoText(createdAt, now))
  }
}
