/**
 * Vocabulary shared by both trip workflows: the trip record, lookup by id,
 * the roster filters, the "unassigned" view and the exclusivity invariant
 * (an order id sits in at most one roster, at most once).
 */
module Trips {
  import opened Wrappers
  import opened Seqs
  import opened Text
  import opened Orders

  datatype TripStatus = TripPending | InProgress | Completed

  /** A delivery trip; `roster` is the ordered `order_ids` (delivery sequence). */
  datatype Trip<I> = Trip(
    id: I,
    name: string,
    date: string,
    driver: string,
    branch: string,
    roster: seq<OrderId>,
    status: TripStatus)

  /** What a trip handler reports back to the page. */
  datatype Outcome = Done | TripNotFound | NoOrdersInTrip | TripNotEmpty | Cancelled | StoreWriteError

  /** The display name `Trip ${n}`. */
  function TripName(n: nat): string {
    "Trip " + NatToString(n)
  }

  /** Auto-numbered names differ whenever the numbers differ. */
  lemma TripNamesDistinct(n: nat, m: nat)
    requires n != m
    ensures TripName(n) != TripName(m)
  {
    NatToStringInjective(n, m);
    assert TripName(n)[5..] == NatToString(n);
    assert TripName(m)[5..] == NatToString(m);
  }

  /** `trips.find((t) => t.id === id)`, as the index of the first match. */
  function FindTrip<I(==)>(trips: seq<Trip<I>>, id: I): (r: Option<nat>)
    ensures r.Some? ==> r.value < |trips| && trips[r.value].id == id
    ensures r.Some? ==> forall j :: 0 <= j < r.value ==> trips[j].id != id
    ensures r.None? <==> forall j :: 0 <= j < |trips| ==> trips[j].id != id
  {
    if trips == [] then None
    else if trips[0].id == id then Some(0)
    else match FindTrip(trips[1..], id)
      case None => None
      case Some(k) => Some(k + 1)
  }

  ghost predicate UniqueIds<I>(trips: seq<Trip<I>>) {
    forall i, j :: 0 <= i < j < |trips| ==> trips[i].id != trips[j].id
  }

  /** `trips.some((trip) => trip.order_ids.includes(x))`. */
  predicate InAnyRoster<I>(trips: seq<Trip<I>>, x: OrderId) {
    exists i :: 0 <= i < |trips| && x in trips[i].roster
  }

  ghost predicate Disjoint(a: seq<OrderId>, b: seq<OrderId>) {
    forall k :: 0 <= k < |a| ==> a[k] !in b
  }

  /** Every order id occurs in at most one trip's roster, and at most once there. */
  ghost predicate Exclusive<I>(trips: seq<Trip<I>>) {
    && (forall i :: 0 <= i < |trips| ==> NoDuplicates(trips[i].roster))
    && (forall i, j :: 0 <= i < |trips| && 0 <= j < |trips| && i != j ==> Disjoint(trips[i].roster, trips[j].roster))
  }

  /** Pending and in no roster of any trip. */
  function IsUnassigned<I>(trips: seq<Trip<I>>): Order -> bool {
    (o: Order) => o.status == StatusPending && !InAnyRoster(trips, o.id)
  }

  function Unassigned<I>(orders: seq<Order>, trips: seq<Trip<I>>): seq<Order> {
    Filter(orders, IsUnassigned(trips))
  }

  /** The roster without any occurrence of `x`. */
  function RemoveFromRoster(roster: seq<OrderId>, x: OrderId): seq<OrderId> {
    Filter(roster, NotEqual(x))
  }

  lemma UnassignedMembership<I>(orders: seq<Order>, trips: seq<Trip<I>>, o: Order)
    ensures o in Unassigned(orders, trips) <==>
              o in orders && o.status == StatusPending && forall i :: 0 <= i < |trips| ==> o.id !in trips[i].roster
  {
    FilterMembership(orders, IsUnassigned(trips), o);
  }

  /**
   * Removal deletes every occurrence of `x`, keeps every occurrence of every
   * other id, and keeps their relative order.
   */
  lemma RemoveFromRosterSpec(roster: seq<OrderId>, x: OrderId)
    ensures x !in RemoveFromRoster(roster, x)
    ensures forall y :: y != x ==> (y in RemoveFromRoster(roster, x) <==> y in roster)
    ensures IsSubsequence(RemoveFromRoster(roster, x), roster)
    ensures x !in roster ==> RemoveFromRoster(roster, x) == roster
    ensures multiset(RemoveFromRoster(roster, x)) == multiset(roster)[x := 0]
  {
    FilterIsSubsequence(roster, NotEqual(x));
    forall y ensures multiset(RemoveFromRoster(roster, x))[y] == multiset(roster)[x := 0][y] {
      FilterMultiset(roster, NotEqual(x), y);
    }
    forall y ensures y in RemoveFromRoster(roster, x) <==> y in roster && y != x {
      FilterMembership(roster, NotEqual(x), y);
    }
    if x !in roster {
      FilterAllTrue(roster, NotEqual(x));
    }
  }

  /** Appending an id that is in no roster keeps the assignment exclusive. */
  lemma ExclusiveAfterAppend<I>(trips: seq<Trip<I>>, i: nat, t: Trip<I>, x: OrderId)
    requires Exclusive(trips) && i < |trips|
    requires !InAnyRoster(trips, x)
    requires t.roster == trips[i].roster + [x]
    ensures Exclusive(trips[i := t])
  {
    var u := trips[i := t];
    assert x !in trips[i].roster;
    forall a | 0 <= a < |u| ensures NoDuplicates(u[a].roster) {
      if a == i {
        forall k, l | 0 <= k < l < |t.roster| ensures t.roster[k] != t.roster[l] {
          if l == |t.roster| - 1 {
            assert t.roster[k] in trips[i].roster;
          } else {
            assert t.roster[k] == trips[i].roster[k] && t.roster[l] == trips[i].roster[l];
          }
        }
      }
    }
    forall a, b | 0 <= a < |u| && 0 <= b < |u| && a != b ensures Disjoint(u[a].roster, u[b].roster) {
      if a == i {
        forall k | 0 <= k < |t.roster| ensures t.roster[k] !in u[b].roster {
          if k < |trips[i].roster| {
            assert t.roster[k] == trips[i].roster[k];
            assert Disjoint(trips[i].roster, trips[b].roster);
          } else {
            assert x !in trips[b].roster;
          }
        }
      } else if b == i {
        forall k | 0 <= k < |u[a].roster| ensures u[a].roster[k] !in t.roster {
          assert Disjoint(trips[a].roster, trips[i].roster);
          assert u[a].roster[k] in trips[a].roster;
        }
      } else {
        assert Disjoint(trips[a].roster, trips[b].roster);
      }
    }
  }

  /** Replacing a roster by a duplicate-free selection of its own ids keeps the assignment exclusive. */
  lemma ExclusiveAfterShrink<I>(trips: seq<Trip<I>>, i: nat, t: Trip<I>)
    requires Exclusive(trips) && i < |trips|
    requires NoDuplicates(t.roster)
    requires forall k :: 0 <= k < |t.roster| ==> t.roster[k] in trips[i].roster
    ensures Exclusive(trips[i := t])
  {
    var u := trips[i := t];
    forall a, b | 0 <= a < |u| && 0 <= b < |u| && a != b ensures Disjoint(u[a].roster, u[b].roster) {
      if a == i {
        forall k | 0 <= k < |t.roster| ensures t.roster[k] !in u[b].roster {
          assert t.roster[k] in trips[i].roster;
          assert Disjoint(trips[i].roster, trips[b].roster);
        }
      } else if b == i {
        forall k | 0 <= k < |u[a].roster| ensures u[a].roster[k] !in t.roster {
          assert Disjoint(trips[a].roster, trips[i].roster);
          assert u[a].roster[k] in trips[a].roster;
        }
      } else {
        assert Disjoint(trips[a].roster, trips[b].roster);
      }
    }
  }

  /** Removing an order from a roster keeps the assignment exclusive. */
  lemma ExclusiveAfterRemove<I>(trips: seq<Trip<I>>, i: nat, t: Trip<I>, x: OrderId)
    requires Exclusive(trips) && i < |trips|
    requires t.roster == RemoveFromRoster(trips[i].roster, x)
    ensures Exclusive(trips[i := t])
  {
    FilterNoDuplicates(trips[i].roster, NotEqual(x));
    RemoveFromRosterSpec(trips[i].roster, x);
    ExclusiveAfterShrink(trips, i, t);
  }
}
