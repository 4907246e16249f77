/**
 * The shared, persisted trips of the operator's Trips page: every trip lives
 * in the `trips` table with branch "Shared", operators of all branches assign
 * their own pending orders to it, and completion is scoped to the caller's
 * branch. Each store write is a separate step whose success is a parameter.
 */
module TripsPage {
  import opened Wrappers
  import opened Seqs
  import opened Orders
  import opened Trips

  type TripId = string
  type SharedTrip = Trip<TripId>

  /** The branch column of every trip this page creates and loads. */
  const SharedBranch: string := "Shared"

  /** The caller's pending orders that no trip carries. */
  function UnassignedForBranch(orders: seq<Order>, trips: seq<SharedTrip>, branch: string): seq<Order> {
    Unassigned(BranchScope(orders, branch), trips)
  }

  function InRoster(roster: seq<OrderId>): Order -> bool {
    (o: Order) => o.id in roster
  }

  /** The caller-scope orders a trip carries, in order-list order. */
  function TripOrders(orders: seq<Order>, branch: string, trip: SharedTrip): seq<Order> {
    if trip.roster == [] then [] else Filter(BranchScope(orders, branch), InRoster(trip.roster))
  }

  /** The count shown on the trip's tab. */
  function MyOrdersCount(orders: seq<Order>, branch: string, trip: SharedTrip): nat {
    if trip.roster == [] then 0 else |Filter(BranchScope(orders, branch), InRoster(trip.roster))|
  }

  function IdsOf(s: seq<Order>): set<OrderId> {
    set k | 0 <= k < |s| :: s[k].id
  }

  lemma IdsOfSnoc(s: seq<Order>, k: nat)
    requires k < |s|
    ensures IdsOf(s[..k + 1]) == IdsOf(s[..k]) + {s[k].id}
  {
    var a, b := s[..k + 1], s[..k];
    forall x | x in IdsOf(a) ensures x in IdsOf(b) + {s[k].id} {
      var j :| 0 <= j < |a| && a[j].id == x;
      if j < k { assert b[j] == a[j]; }
    }
    forall x | x in IdsOf(b) + {s[k].id} ensures x in IdsOf(a) {
      if x == s[k].id { assert a[k] == s[k]; }
      else { var j :| 0 <= j < |b| && b[j].id == x; assert a[j] == b[j]; }
    }
  }

  function NotIn(ids: set<OrderId>): OrderId -> bool {
    (x: OrderId) => x !in ids
  }

  /**
   * An order is listed as unassigned exactly when it is in the caller's scope,
   * pending, and in no trip's roster.
   */
  lemma UnassignedForBranchMembership(orders: seq<Order>, trips: seq<SharedTrip>, branch: string, o: Order)
    ensures o in UnassignedForBranch(orders, trips, branch) <==>
              && o in orders
              && (branch == AllBranches || o.branch == branch)
              && o.status == StatusPending
              && forall i :: 0 <= i < |trips| ==> o.id !in trips[i].roster
  {
    UnassignedMembership(BranchScope(orders, branch), trips, o);
    BranchScopeMembership(orders, branch, o);
  }

  /** The unassigned list keeps the order of the order list. */
  lemma UnassignedIsSubsequence(orders: seq<Order>, trips: seq<SharedTrip>, branch: string)
    ensures IsSubsequence(UnassignedForBranch(orders, trips, branch), BranchScope(orders, branch))
  {
    FilterIsSubsequence(BranchScope(orders, branch), IsUnassigned(trips));
  }

  /**
   * The tab count is the length of the trip's order list: the number of
   * caller-scope orders whose id is in the roster, and 0 for an empty roster.
   */
  lemma MyOrdersCountSpec(orders: seq<Order>, branch: string, trip: SharedTrip)
    ensures MyOrdersCount(orders, branch, trip) == |TripOrders(orders, branch, trip)|
    ensures MyOrdersCount(orders, branch, trip) == Count(BranchScope(orders, branch), InRoster(trip.roster))
    ensures trip.roster == [] ==> MyOrdersCount(orders, branch, trip) == 0
  {
    FilterCount(BranchScope(orders, branch), InRoster(trip.roster));
    if trip.roster == [] {
      CountNothing(BranchScope(orders, branch), InRoster(trip.roster));
    }
  }

  lemma {:induction false} CountNothing(s: seq<Order>, p: Order -> bool)
    requires forall k :: 0 <= k < |s| ==> !p(s[k])
    ensures Count(s, p) == 0
  {
    if s != [] {
      CountNothing(s[1..], p);
    }
  }

  lemma TripOrdersMembership(orders: seq<Order>, branch: string, trip: SharedTrip, o: Order)
    ensures o in TripOrders(orders, branch, trip) <==>
              o in orders && (branch == AllBranches || o.branch == branch) && o.id in trip.roster
  {
    FilterMembership(BranchScope(orders, branch), InRoster(trip.roster), o);
    BranchScopeMembership(orders, branch, o);
  }

  /**
   * Assigning an order taken from the unassigned list keeps every order id in
   * at most one roster, at most once.
   */
  lemma AssignFromUnassignedKeepsExclusive(orders: seq<Order>, trips: seq<SharedTrip>, branch: string, o: Order, i: nat)
    requires Exclusive(trips) && i < |trips|
    requires o in UnassignedForBranch(orders, trips, branch)
    ensures Exclusive(trips[i := trips[i].(roster := trips[i].roster + [o.id], status := InProgress)])
  {
    UnassignedForBranchMembership(orders, trips, branch, o);
    ExclusiveAfterAppend(trips, i, trips[i].(roster := trips[i].roster + [o.id], status := InProgress), o.id);
  }

  /** What a completion leaves in the roster: every occurrence of every id not among the completed orders, in order. */
  lemma CompletionRemainder(roster: seq<OrderId>, done: set<OrderId>)
    ensures forall k :: 0 <= k < |Filter(roster, NotIn(done))| ==> Filter(roster, NotIn(done))[k] !in done
    ensures forall y :: y !in done ==> (y in Filter(roster, NotIn(done)) <==> y in roster)
    ensures IsSubsequence(Filter(roster, NotIn(done)), roster)
    ensures forall y :: y !in done ==> multiset(Filter(roster, NotIn(done)))[y] == multiset(roster)[y]
  {
    FilterIsSubsequence(roster, NotIn(done));
    forall y | y !in done ensures multiset(Filter(roster, NotIn(done)))[y] == multiset(roster)[y] {
      FilterMultiset(roster, NotIn(done), y);
    }
    forall y ensures y in Filter(roster, NotIn(done)) <==> y in roster && y !in done {
      FilterMembership(roster, NotIn(done), y);
    }
  }

  /** Shrinking a roster to what a completion leaves keeps the assignment exclusive. */
  lemma CompletionKeepsExclusive(trips: seq<SharedTrip>, i: nat, done: set<OrderId>, status: TripStatus)
    requires Exclusive(trips) && i < |trips|
    ensures Exclusive(trips[i := trips[i].(roster := Filter(trips[i].roster, NotIn(done)), status := status)])
  {
    var t := trips[i].(roster := Filter(trips[i].roster, NotIn(done)), status := status);
    FilterNoDuplicates(trips[i].roster, NotIn(done));
    forall k | 0 <= k < |t.roster| ensures t.roster[k] in trips[i].roster {
      FilterMembership(trips[i].roster, NotIn(done), t.roster[k]);
    }
    ExclusiveAfterShrink(trips, i, t);
  }

  /** Deleting trip `i` removes exactly the trips with its id and keeps every other trip findable. */
  lemma DeleteRemovesOnlyThatTrip(trips: seq<SharedTrip>, i: nat)
    requires UniqueIds(trips) && i < |trips|
    ensures FindTrip(trips[..i] + trips[i + 1..], trips[i].id).None?
    ensures forall id :: id != trips[i].id ==>
              (FindTrip(trips[..i] + trips[i + 1..], id).Some? <==> FindTrip(trips, id).Some?)
  {
    var rest := trips[..i] + trips[i + 1..];
    forall j | 0 <= j < |rest| ensures rest[j].id != trips[i].id {
      if j < i { assert rest[j] == trips[j]; } else { assert rest[j] == trips[j + 1]; }
    }
    forall id | id != trips[i].id
      ensures FindTrip(rest, id).Some? <==> FindTrip(trips, id).Some?
    {
      if FindTrip(trips, id).Some? {
        var j := FindTrip(trips, id).value;
        assert j != i;
        if j < i { assert rest[j] == trips[j]; } else { assert rest[j - 1] == trips[j]; }
      }
      if FindTrip(rest, id).Some? {
        var j := FindTrip(rest, id).value;
        if j < i { assert rest[j] == trips[j]; } else { assert rest[j] == trips[j + 1]; }
      }
    }
  }

  /** The trips page of one operator: the loaded trip list and the order table. */
  class SharedTripBoard {
    /** The signed-in operator's branch scope (a branch name or "All"). */
    const branch: string
    var trips: seq<SharedTrip>
    var orders: seq<Order>

    ghost predicate Valid()
      reads this
    {
      UniqueIds(trips) && forall i :: 0 <= i < |trips| ==> trips[i].branch == SharedBranch
    }

    /** The state right after `loadTrips` returned the shared trips. */
    constructor (branch: string, trips: seq<SharedTrip>, orders: seq<Order>)
      requires UniqueIds(trips) && forall i :: 0 <= i < |trips| ==> trips[i].branch == SharedBranch
      ensures Valid()
      ensures this.branch == branch && this.trips == trips && this.orders == orders
    {
      this.branch := branch;
      this.trips := trips;
      this.orders := orders;
    }

    /** One `orders.update({status}).eq("id", id)` write. */
    method WriteOrderStatus(id: OrderId, status: string, ok: bool)
      modifies this
      ensures trips == old(trips)
      ensures orders == if ok then UpdateStatus(old(orders), {id}, StatusPatch(status, None)) else old(orders)
    {
      if ok {
        orders := UpdateStatus(orders, {id}, StatusPatch(status, None));
      }
    }

    /** "New Trip": insert `Trip n+1` with an empty roster; the store supplies `newId`. */
    method CreateTrip(newId: TripId, today: string, writeOk: bool) returns (outcome: Outcome)
      requires Valid()
      requires FindTrip(trips, newId).None?
      modifies this
      ensures Valid() && orders == old(orders)
      ensures outcome == (if writeOk then Done else StoreWriteError)
      ensures !writeOk ==> trips == old(trips)
      ensures writeOk ==> |trips| == |old(trips)| + 1 && trips[..|old(trips)|] == old(trips)
      ensures writeOk ==> var t := trips[|old(trips)|];
                t.id == newId && t.name == TripName(|old(trips)| + 1) && t.date == today && t.driver == ""
                && t.branch == SharedBranch && t.roster == [] && t.status == TripPending
    {
      var trip := Trip(newId, TripName(|trips| + 1), today, "", SharedBranch, [], TripPending);
      if !writeOk {
        return StoreWriteError;
      }
      trips := trips + [trip];
      outcome := Done;
    }

    /**
     * Assign: write the trip (roster + [orderId], "in-progress"), and only if
     * that succeeded write the order "scheduled"; that second result is ignored.
     */
    method AddOrderToTrip(orderId: OrderId, tripId: TripId, tripWriteOk: bool, orderWriteOk: bool)
      returns (outcome: Outcome)
      requires Valid()
      modifies this
      ensures Valid()
      ensures FindTrip(old(trips), tripId).None? ==>
                outcome == TripNotFound && trips == old(trips) && orders == old(orders)
      ensures FindTrip(old(trips), tripId).Some? && !tripWriteOk ==>
                outcome == StoreWriteError && trips == old(trips) && orders == old(orders)
      ensures FindTrip(old(trips), tripId).Some? && tripWriteOk ==>
                var i := FindTrip(old(trips), tripId).value;
                && outcome == Done
                && trips == old(trips)[i := old(trips)[i].(roster := old(trips)[i].roster + [orderId], status := InProgress)]
                && orders == if orderWriteOk then UpdateStatus(old(orders), {orderId}, StatusPatch(StatusScheduled, None))
                             else old(orders)
    {
      var found := FindTrip(trips, tripId);
      if found.None? {
        return TripNotFound;
      }
      var i := found.value;
      var newIds := trips[i].roster + [orderId];
      if !tripWriteOk {
        return StoreWriteError;
      }
      trips := trips[i := trips[i].(roster := newIds, status := InProgress)];
      WriteOrderStatus(orderId, StatusScheduled, orderWriteOk);
      outcome := Done;
    }

    /**
     * Unassign: write the roster without `orderId` (status untouched), then,
     * only if that succeeded, write the order back to "pending".
     */
    method RemoveOrderFromTrip(orderId: OrderId, tripId: TripId, tripWriteOk: bool, orderWriteOk: bool)
      returns (outcome: Outcome)
      requires Valid()
      modifies this
      ensures Valid()
      ensures FindTrip(old(trips), tripId).None? ==>
                outcome == TripNotFound && trips == old(trips) && orders == old(orders)
      ensures FindTrip(old(trips), tripId).Some? && !tripWriteOk ==>
                outcome == StoreWriteError && trips == old(trips) && orders == old(orders)
      ensures FindTrip(old(trips), tripId).Some? && tripWriteOk ==>
                var i := FindTrip(old(trips), tripId).value;
                && outcome == Done
                && trips == old(trips)[i := old(trips)[i].(roster := RemoveFromRoster(old(trips)[i].roster, orderId))]
                && orders == if orderWriteOk then UpdateStatus(old(orders), {orderId}, StatusPatch(StatusPending, None))
                             else old(orders)
    {
      var found := FindTrip(trips, tripId);
      if found.None? {
        return TripNotFound;
      }
      var i := found.value;
      var newIds := RemoveFromRoster(trips[i].roster, orderId);
      if !tripWriteOk {
        return StoreWriteError;
      }
      trips := trips[i := trips[i].(roster := newIds)];
      WriteOrderStatus(orderId, StatusPending, orderWriteOk);
      outcome := Done;
    }

    /**
     * The `for (const order of myTripOrders)` loop: one "delivered" write per
     * order, each failing exactly when its id is in `failedWrites`.
     */
    method WriteDelivered(mine: seq<Order>, failedWrites: set<OrderId>)
      modifies this
      ensures trips == old(trips)
      ensures orders == UpdateStatus(old(orders), IdsOf(mine) - failedWrites, StatusPatch(StatusDelivered, None))
    {
      var patch := StatusPatch(StatusDelivered, None);
      var k := 0;
      while k < |mine|
        invariant 0 <= k <= |mine|
        invariant trips == old(trips)
        invariant orders == UpdateStatus(old(orders), IdsOf(mine[..k]) - failedWrites, patch)
      {
        ghost var done := IdsOf(mine[..k]) - failedWrites;
        WriteOrderStatus(mine[k].id, StatusDelivered, mine[k].id !in failedWrites);
        if mine[k].id !in failedWrites {
          UpdateStatusCompose(old(orders), done, {mine[k].id}, patch);
        }
        IdsOfSnoc(mine, k);
        k := k + 1;
      }
      assert mine[..k] == mine;
    }

    /**
     * Complete the caller's deliveries in a trip: after confirmation, write
     * "delivered" to each of the caller-scope orders of the trip (the writes
     * for ids in `failedWrites` fail and are passed over), then write the
     * roster without them, "completed" when nothing remains, else "in-progress".
     */
    method CompleteTrip(tripId: TripId, confirmed: bool, failedWrites: set<OrderId>, tripWriteOk: bool)
      returns (outcome: Outcome)
      requires Valid()
      modifies this
      ensures Valid()
      ensures FindTrip(old(trips), tripId).None? ==>
                outcome == TripNotFound && trips == old(trips) && orders == old(orders)
      ensures FindTrip(old(trips), tripId).Some? ==>
                var i := FindTrip(old(trips), tripId).value;
                var mine := TripOrders(old(orders), branch, old(trips)[i]);
                var remaining := Filter(old(trips)[i].roster, NotIn(IdsOf(mine)));
                && (mine == [] ==> outcome == NoOrdersInTrip && trips == old(trips) && orders == old(orders))
                && (mine != [] && !confirmed ==> outcome == Cancelled && trips == old(trips) && orders == old(orders))
                && (mine != [] && confirmed ==>
                      && outcome == Done
                      && orders == UpdateStatus(old(orders), IdsOf(mine) - failedWrites, StatusPatch(StatusDelivered, None))
                      && trips == if tripWriteOk
                                  then old(trips)[i := old(trips)[i].(roster := remaining,
                                                                      status := if remaining == [] then Completed else InProgress)]
                                  else old(trips))
    {
      var found := FindTrip(trips, tripId);
      if found.None? {
        return TripNotFound;
      }
      var i := found.value;
      var mine := TripOrders(orders, branch, trips[i]);
      if |mine| == 0 {
        return NoOrdersInTrip;
      }
      if !confirmed {
        return Cancelled;
      }
      WriteDelivered(mine, failedWrites);
      var remaining := Filter(trips[i].roster, NotIn(IdsOf(mine)));
      if tripWriteOk {
        trips := trips[i := trips[i].(roster := remaining, status := if |remaining| == 0 then Completed else InProgress)];
      }
      outcome := Done;
    }

    /** `trips.update({driver}).eq("id", tripId)`. */
    method UpdateDriver(tripId: TripId, driver: string, writeOk: bool)
      requires Valid()
      modifies this
      ensures Valid() && orders == old(orders)
      ensures FindTrip(old(trips), tripId).Some? && writeOk ==>
                var i := FindTrip(old(trips), tripId).value;
                trips == old(trips)[i := old(trips)[i].(driver := driver)]
      ensures FindTrip(old(trips), tripId).None? || !writeOk ==> trips == old(trips)
    {
      var found := FindTrip(trips, tripId);
      if found.Some? && writeOk {
        trips := trips[found.value := trips[found.value].(driver := driver)];
      }
    }

    /** Delete a trip: refused while its roster holds any order, then confirmed, then one store delete. */
    method DeleteTrip(tripId: TripId, confirmed: bool, writeOk: bool) returns (outcome: Outcome)
      requires Valid()
      modifies this
      ensures Valid() && orders == old(orders)
      ensures FindTrip(old(trips), tripId).None? ==> outcome == TripNotFound && trips == old(trips)
      ensures FindTrip(old(trips), tripId).Some? ==>
                var i := FindTrip(old(trips), tripId).value;
                && (old(trips)[i].roster != [] ==> outcome == TripNotEmpty && trips == old(trips))
                && (old(trips)[i].roster == [] && !confirmed ==> outcome == Cancelled && trips == old(trips))
                && (old(trips)[i].roster == [] && confirmed && !writeOk ==> outcome == StoreWriteError && trips == old(trips))
                && (old(trips)[i].roster == [] && confirmed && writeOk ==>
                      outcome == Done && trips == old(trips)[..i] + old(trips)[i + 1..])
    {
      var found := FindTrip(trips, tripId);
      if found.None? {
        return TripNotFound;
      }
      var i := found.value;
      if |trips[i].roster| > 0 {
        return TripNotEmpty;
      }
      if !confirmed {
        return Cancelled;
      }
      if !writeOk {
        return StoreWriteError;
      }
      ghost var was := trips;
      trips := trips[..i] + trips[i + 1..];
      forall a, b | 0 <= a < b < |trips| ensures trips[a].id != trips[b].id {
        var a' := if a < i then a else a + 1;
        var b' := if b < i then b else b + 1;
        assert trips[a] == was[a'] && trips[b] == was[b'];
      }
      forall a | 0 <= a < |trips| ensures trips[a].branch == SharedBranch {
        assert trips[a] == was[if a < i then a else a + 1];
      }
      outcome := Done;
    }
  }
}
