/**
 * The per-branch, in-memory trips of the operator module: five trips created
 * when the page opens, manual reordering within a roster, and a bulk
 * "complete" that marks every rostered order delivered and keeps the roster.
 * Trip changes are local state; only order-status writes reach the store.
 */
module OperatorModule {
  import opened Wrappers
  import opened Seqs
  import opened Orders
  import opened Trips

  type LocalTrip = Trip<int>

  /** Branch given to the initial trips of an "All"-scope user. */
  const DefaultBranch: string := "Jakarta"
  const AdminRole: string := "admin"

  datatype Direction = Up | Down

  /** The trip fields the page edits in place. */
  datatype TripField = DriverField | DateField

  function TripInBranch(branch: string): LocalTrip -> bool {
    (t: LocalTrip) => t.branch == branch
  }

  function NotCompleted(): LocalTrip -> bool {
    (t: LocalTrip) => t.status != Completed
  }

  /** The trips shown as tabs: all of them for an admin or an "All" user, else the user's branch's. */
  function FilteredTrips(role: string, branch: string, trips: seq<LocalTrip>): seq<LocalTrip> {
    if role == AdminRole || branch == AllBranches then trips else Filter(trips, TripInBranch(branch))
  }

  /** The trips offered in the "Assign to Trip" menu. */
  function AssignTargets(role: string, branch: string, trips: seq<LocalTrip>): seq<LocalTrip> {
    Filter(FilteredTrips(role, branch, trips), NotCompleted())
  }

  /** `trips.flatMap((t) => t.orders)`. */
  function AssignedIds(trips: seq<LocalTrip>): seq<OrderId> {
    Flatten(seq(|trips|, i requires 0 <= i < |trips| => trips[i].roster))
  }

  function PendingAndNotIn(ids: seq<OrderId>): Order -> bool {
    (o: Order) => o.status == StatusPending && o.id !in ids
  }

  /** `getUnassignedOrders`: pending orders whose id is in no trip's roster, across all trips. */
  function UnassignedOrders(orders: seq<Order>, trips: seq<LocalTrip>): seq<Order> {
    Filter(orders, PendingAndNotIn(AssignedIds(trips)))
  }

  /** `indexOf`: the first position of `x`, or -1. */
  function IndexOf(s: seq<OrderId>, x: OrderId): (r: int)
    ensures -1 <= r < |s|
    ensures r >= 0 ==> s[r] == x && forall j :: 0 <= j < r ==> s[j] != x
    ensures r == -1 <==> x !in s
  {
    if s == [] then -1
    else if s[0] == x then 0
    else var k := IndexOf(s[1..], x); if k == -1 then -1 else k + 1
  }

  /** The roster after moving `x` one place up or down; a move past either end leaves it as it is. */
  function Reordered(roster: seq<OrderId>, x: OrderId, dir: Direction): seq<OrderId>
    requires x in roster
  {
    var k := IndexOf(roster, x);
    if dir == Up && k > 0 then Swap(roster, k, k - 1)
    else if dir == Down && k < |roster| - 1 then Swap(roster, k, k + 1)
    else roster
  }

  /** A move keeps the roster's length and its ids: it is a permutation. */
  lemma ReorderedIsPermutation(roster: seq<OrderId>, x: OrderId, dir: Direction)
    requires x in roster
    ensures |Reordered(roster, x, dir)| == |roster|
    ensures multiset(Reordered(roster, x, dir)) == multiset(roster)
  {
    var k := IndexOf(roster, x);
    if dir == Up && k > 0 {
      SwapIsPermutation(roster, k, k - 1);
    } else if dir == Down && k < |roster| - 1 {
      SwapIsPermutation(roster, k, k + 1);
    }
  }

  /**
   * Moving up exchanges `x` with its predecessor and moving down with its
   * successor; the first id cannot move up and the last cannot move down.
   */
  lemma ReorderedPositions(roster: seq<OrderId>, x: OrderId, dir: Direction)
    requires x in roster
    ensures var k := IndexOf(roster, x);
            && (dir == Up && k > 0 ==> Reordered(roster, x, dir)[k - 1] == x && Reordered(roster, x, dir)[k] == roster[k - 1])
            && (dir == Down && k < |roster| - 1 ==> Reordered(roster, x, dir)[k + 1] == x && Reordered(roster, x, dir)[k] == roster[k + 1])
            && (dir == Up && roster[0] == x ==> Reordered(roster, x, dir) == roster)
            && (dir == Down && roster[|roster| - 1] == x && NoDuplicates(roster) ==> Reordered(roster, x, dir) == roster)
            && (forall j :: 0 <= j < |roster| && j != k && !(dir == Up && j == k - 1) && !(dir == Down && j == k + 1) ==>
                  Reordered(roster, x, dir)[j] == roster[j])
  {
  }

  /** The boundary behaviour on the roster [A, B, C]. */
  lemma ReorderedExample()
    ensures Reordered(["A", "B", "C"], "A", Up) == ["A", "B", "C"]
    ensures Reordered(["A", "B", "C"], "C", Down) == ["A", "B", "C"]
    ensures Reordered(["A", "B", "C"], "B", Up) == ["B", "A", "C"]
  {
    assert IndexOf(["A", "B", "C"], "B") == 1;
    assert IndexOf(["A", "B", "C"], "C") == 2;
  }

  /**
   * The flattened-roster test agrees with the per-trip test: an order is
   * unassigned exactly when it is pending and in the roster of no trip at
   * all, whether or not that trip is visible to the user.
   */
  lemma UnassignedOrdersSpec(orders: seq<Order>, trips: seq<LocalTrip>, o: Order)
    ensures o in UnassignedOrders(orders, trips) <==>
              o in orders && o.status == StatusPending && forall i :: 0 <= i < |trips| ==> o.id !in trips[i].roster
    ensures UnassignedOrders(orders, trips) == Unassigned(orders, trips)
  {
    var rosters := seq(|trips|, i requires 0 <= i < |trips| => trips[i].roster);
    forall x: OrderId ensures x in AssignedIds(trips) <==> InAnyRoster(trips, x) {
      FlattenMembership(rosters, x);
      if x in AssignedIds(trips) {
        var i :| 0 <= i < |rosters| && x in rosters[i];
        assert x in trips[i].roster;
      }
      if InAnyRoster(trips, x) {
        var i :| 0 <= i < |trips| && x in trips[i].roster;
        assert x in rosters[i];
      }
    }
    FilterMembership(orders, PendingAndNotIn(AssignedIds(trips)), o);
    FilterSame(orders, PendingAndNotIn(AssignedIds(trips)), IsUnassigned(trips));
  }

  lemma {:induction false} FilterSame<T>(s: seq<T>, p: T -> bool, q: T -> bool)
    requires forall k :: 0 <= k < |s| ==> p(s[k]) == q(s[k])
    ensures Filter(s, p) == Filter(s, q)
  {
    if s != [] {
      FilterSame(s[1..], p, q);
    }
  }

  /** Tabs: every trip for an admin or "All" user, otherwise exactly the trips of the user's branch. */
  lemma FilteredTripsSpec(role: string, branch: string, trips: seq<LocalTrip>, t: LocalTrip)
    ensures role == AdminRole || branch == AllBranches ==> FilteredTrips(role, branch, trips) == trips
    ensures t in FilteredTrips(role, branch, trips) <==>
              t in trips && (role == AdminRole || branch == AllBranches || t.branch == branch)
    ensures IsSubsequence(FilteredTrips(role, branch, trips), trips)
  {
    if !(role == AdminRole || branch == AllBranches) {
      FilterMembership(trips, TripInBranch(branch), t);
      FilterIsSubsequence(trips, TripInBranch(branch));
    } else {
      SubsequenceRefl(trips);
    }
  }

  /** The assign menu lists exactly the visible trips that are not completed. */
  lemma AssignTargetsSpec(role: string, branch: string, trips: seq<LocalTrip>, t: LocalTrip)
    ensures t in AssignTargets(role, branch, trips) <==>
              t in trips && (role == AdminRole || branch == AllBranches || t.branch == branch) && t.status != Completed
  {
    FilteredTripsSpec(role, branch, trips, t);
    FilterMembership(FilteredTrips(role, branch, trips), NotCompleted(), t);
  }

  /** The operator module of one signed-in user. */
  class BranchTripBoard {
    const role: string
    const branch: string
    var trips: seq<LocalTrip>
    var orders: seq<Order>

    ghost predicate Valid()
      reads this
    {
      UniqueIds(trips)
    }

    /** The five empty trips set up when the module opens. */
    constructor (role: string, branch: string, today: string, orders: seq<Order>)
      ensures Valid()
      ensures this.role == role && this.branch == branch && this.orders == orders
      ensures |trips| == 5
      ensures forall i :: 0 <= i < 5 ==>
                trips[i] == Trip(i + 1, TripName(i + 1), today, "", if branch == AllBranches then DefaultBranch else branch,
                                 [], TripPending)
    {
      this.role := role;
      this.branch := branch;
      this.orders := orders;
      var home := if branch == AllBranches then DefaultBranch else branch;
      assert TripName(1) == "Trip 1" && TripName(2) == "Trip 2" && TripName(3) == "Trip 3";
      assert TripName(4) == "Trip 4" && TripName(5) == "Trip 5";
      trips := [
        Trip(1, "Trip 1", today, "", home, [], TripPending),
        Trip(2, "Trip 2", today, "", home, [], TripPending),
        Trip(3, "Trip 3", today, "", home, [], TripPending),
        Trip(4, "Trip 4", today, "", home, [], TripPending),
        Trip(5, "Trip 5", today, "", home, [], TripPending)
      ];
    }

    /** `handleUpdateOrderStatus`: one write of `status`, with `delivered_date` when the status is "delivered". */
    method UpdateOrderStatus(orderId: OrderId, status: string, today: string, writeOk: bool)
      modifies this
      ensures trips == old(trips)
      ensures orders == if writeOk
                        then UpdateStatus(old(orders), {orderId},
                                          StatusPatch(status, if status == StatusDelivered then Some(today) else None))
                        else old(orders)
    {
      var patch := StatusPatch(status, None);
      if status == StatusDelivered {
        patch := patch.(deliveredDate := Some(today));
      }
      if writeOk {
        orders := UpdateStatus(orders, {orderId}, patch);
      }
    }

    /**
     * Assign: append to the target trip (it becomes "in-progress" when this is
     * its first order), then write the order "scheduled" whether or not the
     * trip id matched.
     */
    method AddOrderToTrip(orderId: OrderId, tripId: int, writeOk: bool)
      requires Valid()
      modifies this
      ensures Valid()
      ensures FindTrip(old(trips), tripId).None? ==> trips == old(trips)
      ensures FindTrip(old(trips), tripId).Some? ==>
                var i := FindTrip(old(trips), tripId).value;
                var t := old(trips)[i];
                trips == old(trips)[i := t.(roster := t.roster + [orderId],
                                            status := if t.roster == [] then InProgress else t.status)]
      ensures orders == if writeOk then UpdateStatus(old(orders), {orderId}, StatusPatch(StatusScheduled, None))
                        else old(orders)
    {
      var found := FindTrip(trips, tripId);
      if found.Some? {
        var t := trips[found.value];
        trips := trips[found.value := t.(roster := t.roster + [orderId],
                                         status := if |t.roster| == 0 then InProgress else t.status)];
      }
      UpdateOrderStatus(orderId, StatusScheduled, "", writeOk);
    }

    /** Unassign: filter the id out of the target roster (status kept), then write the order "pending". */
    method RemoveOrderFromTrip(orderId: OrderId, tripId: int, writeOk: bool)
      requires Valid()
      modifies this
      ensures Valid()
      ensures FindTrip(old(trips), tripId).None? ==> trips == old(trips)
      ensures FindTrip(old(trips), tripId).Some? ==>
                var i := FindTrip(old(trips), tripId).value;
                trips == old(trips)[i := old(trips)[i].(roster := RemoveFromRoster(old(trips)[i].roster, orderId))]
      ensures orders == if writeOk then UpdateStatus(old(orders), {orderId}, StatusPatch(StatusPending, None))
                        else old(orders)
    {
      var found := FindTrip(trips, tripId);
      if found.Some? {
        var t := trips[found.value];
        trips := trips[found.value := t.(roster := RemoveFromRoster(t.roster, orderId))];
      }
      UpdateOrderStatus(orderId, StatusPending, "", writeOk);
    }

    /**
     * Reorder: copy the roster into a fresh array, swap `orderId` with its
     * neighbour in place, and store the copy; a move past either end and an
     * unknown trip change nothing.
     */
    method ReorderInTrip(tripId: int, orderId: OrderId, dir: Direction)
      requires Valid()
      requires FindTrip(trips, tripId).Some? ==> orderId in trips[FindTrip(trips, tripId).value].roster
      modifies this
      ensures Valid() && orders == old(orders)
      ensures FindTrip(old(trips), tripId).None? ==> trips == old(trips)
      ensures FindTrip(old(trips), tripId).Some? ==>
                var i := FindTrip(old(trips), tripId).value;
                trips == old(trips)[i := old(trips)[i].(roster := Reordered(old(trips)[i].roster, orderId, dir))]
    {
      var found := FindTrip(trips, tripId);
      if found.None? {
        return;
      }
      var i := found.value;
      var roster := trips[i].roster;
      var k := IndexOf(roster, orderId);
      if dir == Up && k > 0 {
        var copy := new OrderId[|roster|](j requires 0 <= j < |roster| => roster[j]);
        copy[k], copy[k - 1] := copy[k - 1], copy[k];
        assert copy[..] == Swap(roster, k, k - 1);
        trips := trips[i := trips[i].(roster := copy[..])];
      } else if dir == Down && k < |roster| - 1 {
        var copy := new OrderId[|roster|](j requires 0 <= j < |roster| => roster[j]);
        copy[k], copy[k + 1] := copy[k + 1], copy[k];
        assert copy[..] == Swap(roster, k, k + 1);
        trips := trips[i := trips[i].(roster := copy[..])];
      }
    }

    /**
     * The `for (const orderId of trip.orders)` loop: one "delivered" write
     * (with `delivered_date`) per rostered id, failing for ids in `failedWrites`.
     */
    method DeliverAll(roster: seq<OrderId>, today: string, failedWrites: set<OrderId>)
      modifies this
      ensures trips == old(trips)
      ensures orders == UpdateStatus(old(orders), (set k | 0 <= k < |roster| :: roster[k]) - failedWrites,
                                     StatusPatch(StatusDelivered, Some(today)))
    {
      var patch := StatusPatch(StatusDelivered, Some(today));
      var n := 0;
      while n < |roster|
        invariant 0 <= n <= |roster|
        invariant trips == old(trips)
        invariant orders == UpdateStatus(old(orders), (set k | 0 <= k < n :: roster[k]) - failedWrites, patch)
      {
        ghost var done := (set k | 0 <= k < n :: roster[k]) - failedWrites;
        UpdateOrderStatus(roster[n], StatusDelivered, today, roster[n] !in failedWrites);
        if roster[n] !in failedWrites {
          UpdateStatusCompose(old(orders), done, {roster[n]}, patch);
        }
        assert (set k | 0 <= k < n + 1 :: roster[k]) == (set k | 0 <= k < n :: roster[k]) + {roster[n]};
        n := n + 1;
      }
    }

    /**
     * Complete a trip: refused for an unknown trip or an empty roster, then
     * confirmed; every rostered order is written "delivered" with today's
     * date, the trip becomes "completed" and keeps its roster.
     */
    method CompleteTrip(tripId: int, confirmed: bool, today: string, failedWrites: set<OrderId>)
      returns (outcome: Outcome)
      requires Valid()
      modifies this
      ensures Valid()
      ensures FindTrip(old(trips), tripId).None? || old(trips)[FindTrip(old(trips), tripId).value].roster == [] ==>
                outcome == NoOrdersInTrip && trips == old(trips) && orders == old(orders)
      ensures FindTrip(old(trips), tripId).Some? && old(trips)[FindTrip(old(trips), tripId).value].roster != [] ==>
                var i := FindTrip(old(trips), tripId).value;
                var roster := old(trips)[i].roster;
                && (!confirmed ==> outcome == Cancelled && trips == old(trips) && orders == old(orders))
                && (confirmed ==>
                      && outcome == Done
                      && trips == old(trips)[i := old(trips)[i].(status := Completed)]
                      && orders == UpdateStatus(old(orders), (set k | 0 <= k < |roster| :: roster[k]) - failedWrites,
                                                StatusPatch(StatusDelivered, Some(today))))
    {
      var found := FindTrip(trips, tripId);
      if found.None? || |trips[found.value].roster| == 0 {
        return NoOrdersInTrip;
      }
      if !confirmed {
        return Cancelled;
      }
      var i := found.value;
      DeliverAll(trips[i].roster, today, failedWrites);
      trips := trips[i := trips[i].(status := Completed)];
      outcome := Done;
    }

    /** `handleUpdateTrip(tripId, field, value)` for the driver and date inputs. */
    method UpdateTrip(tripId: int, field: TripField, value: string)
      requires Valid()
      modifies this
      ensures Valid() && orders == old(orders)
      ensures FindTrip(old(trips), tripId).None? ==> trips == old(trips)
      ensures FindTrip(old(trips), tripId).Some? ==>
                var i := FindTrip(old(trips), tripId).value;
                trips == old(trips)[i := match field
                                         case DriverField => old(trips)[i].(driver := value)
                                         case DateField => old(trips)[i].(date := value)]
    {
      var found := FindTrip(trips, tripId);
      if found.Some? {
        var t := trips[found.value];
        trips := trips[found.value := match field
                                      case DriverField => t.(driver := value)
                                      case DateField => t.(date := value)];
      }
    }
  }
}
