/**
 * The three-stage conversion funnel (`AdvancedAnalyticsController.getFunnelAnalysis`):
 * registered users, users who ordered, users with a completed order.
 */
module FunnelAnalysis {
  import opened Seqs
  import opened Entities

  datatype Stage = Stage(stage: string, count: nat, percentage: Ratio)

  /** Distinct users that placed any order. */
  function UsersWithOrders(orders: seq<Order>): set<int>
  {
    CustomerIds(orders)
  }

  predicate IsCompleted(o: Order)
  {
    o.status == Some("COMPLETED")
  }

  /** Distinct users with an order whose status is exactly "COMPLETED". */
  function UsersWithCompletedOrders(orders: seq<Order>): (ids: set<int>)
    ensures ids <= UsersWithOrders(orders)
  {
    var done := Filter(orders, IsCompleted);
    assert forall i :: 0 <= i < |done| ==> done[i] in orders;
    CustomerIds(done)
  }

  /** Every customer with a completed order is a customer with an order. */
  lemma CompletedWithinOrdered(orders: seq<Order>)
    ensures |UsersWithCompletedOrders(orders)| <= |UsersWithOrders(orders)|
  {
    SubsetCardinality(UsersWithCompletedOrders(orders), UsersWithOrders(orders));
  }

  /**
   * The funnel: the first stage is always 100 percent; the later ones are
   * count·100/totalUsers, or 0 when nobody is registered.  The completed
   * stage never exceeds the ordering stage.
   */
  function Funnel(totalUsers: nat, orders: seq<Order>): (stages: seq<Stage>)
    ensures |stages| == 3
    ensures stages[0].count == totalUsers && stages[0].percentage == Ratio(100, 1)
    ensures stages[1].count == |UsersWithOrders(orders)|
    ensures stages[2].count == |UsersWithCompletedOrders(orders)|
    ensures stages[2].count <= stages[1].count
    ensures totalUsers == 0 ==> stages[1].percentage.num == 0 && stages[2].percentage.num == 0
    ensures totalUsers > 0 ==> forall k :: 1 <= k < 3 ==>
      stages[k].percentage == Ratio(stages[k].count * 100, totalUsers)
  {
    CompletedWithinOrdered(orders);
    var ordered := |UsersWithOrders(orders)|;
    var completed := |UsersWithCompletedOrders(orders)|;
    [ Stage("Đăng ký tài khoản", totalUsers, Ratio(100, 1)),
      Stage("Đặt hàng", ordered, Percent(ordered, totalUsers)),
      Stage("Hoàn thành đơn hàng", completed, Percent(completed, totalUsers)) ]
  }
}
