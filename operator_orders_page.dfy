/**
 * The operator's order overview: the orders of the operator's branch scope
 * grouped by delivery status.
 */
module OperatorOrdersPage {
  import opened Seqs
  import opened Orders

  datatype StatusGroups = StatusGroups(pending: seq<Order>, scheduled: seq<Order>, delivered: seq<Order>)

  /** The three status columns of the operator's scope. */
  function Groups(orders: seq<Order>, branch: string): StatusGroups {
    var mine := BranchScope(orders, branch);
    StatusGroups(HavingStatus(mine, StatusPending), HavingStatus(mine, StatusScheduled), HavingStatus(mine, StatusDelivered))
  }

  /**
   * Each column holds exactly the in-scope orders of its status, in list
   * order; the columns together are never longer than the scope, and are
   * exactly as long when every in-scope order has one of the three statuses.
   */
  lemma GroupsSpec(orders: seq<Order>, branch: string, o: Order)
    ensures var g := Groups(orders, branch);
      (o in g.pending <==> o in orders && (branch == AllBranches || o.branch == branch) && o.status == StatusPending) &&
      (o in g.scheduled <==> o in orders && (branch == AllBranches || o.branch == branch) && o.status == StatusScheduled) &&
      (o in g.delivered <==> o in orders && (branch == AllBranches || o.branch == branch) && o.status == StatusDelivered)
    ensures var g := Groups(orders, branch);
      IsSubsequence(g.pending, BranchScope(orders, branch)) &&
      IsSubsequence(g.scheduled, BranchScope(orders, branch)) &&
      IsSubsequence(g.delivered, BranchScope(orders, branch))
    ensures var g := Groups(orders, branch);
      |g.pending| + |g.scheduled| + |g.delivered| <= |BranchScope(orders, branch)|
    ensures var g := Groups(orders, branch);
      (forall k :: 0 <= k < |BranchScope(orders, branch)| ==>
         BranchScope(orders, branch)[k].status in {StatusPending, StatusScheduled, StatusDelivered}) ==>
      |g.pending| + |g.scheduled| + |g.delivered| == |BranchScope(orders, branch)|
  {
    var mine := BranchScope(orders, branch);
    BranchScopeMembership(orders, branch, o);
    FilterMembership(mine, HasStatus(StatusPending), o);
    FilterMembership(mine, HasStatus(StatusScheduled), o);
    FilterMembership(mine, HasStatus(StatusDelivered), o);
    FilterIsSubsequence(mine, HasStatus(StatusPending));
    FilterIsSubsequence(mine, HasStatus(StatusScheduled));
    FilterIsSubsequence(mine, HasStatus(StatusDelivered));
    FilterPartition3(mine, HasStatus(StatusPending), HasStatus(StatusScheduled), HasStatus(StatusDelivered));
  }
}
