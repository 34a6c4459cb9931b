/** Attaching reservations to shipments, store by store and product by product. */
module StockShipping {
  import opened Common
  import opened Quantities
  import opened Ordering
  import opened StockTables
  import opened StockRun

  /** A reservation that rides on this run's shipments: of a store with an ordinary order, for a line
  of this run or of a completed one whose result may ship, and not on a shipment yet. */
  predicate Rides(r: Reservation, lines: seq<LineRow>, runs: set<Id>, session: Id, input: RunInput) {
    && r.line < |lines| && r.store in input.shippingStores && r.shipment.None?
    && lines[r.line].store == r.store && lines[r.line].product == r.product && lines[r.line].granted > 0
    && var run := lines[r.line].run; run == session || (run in runs && input.shippable(run, r.store))
  }

  predicate Picked(r: Reservation, lines: seq<LineRow>, runs: set<Id>, session: Id, input: RunInput, store: Id, product: Id) {
    r.store == store && r.product == product && Rides(r, lines, runs, session, input)
  }

  function Shipped(r: Reservation, picked: bool, shipment: nat): Reservation {
    if picked then r.(shipment := Some(shipment)) else r
  }

  lemma RidingIsFree(r: Reservation, lines: seq<LineRow>, runs: set<Id>, session: Id, input: RunInput)
    requires Rides(r, lines, runs, session, input)
    ensures r.shipment.None?
  {
  }

  lemma Linked(reservations: seq<Reservation>, i: nat, n: nat)
    requires i < |reservations| && reservations[i].shipment.None?
    ensures forall k :: LinkedTo(reservations[i := reservations[i].(shipment := Some(n))], k)
                     == LinkedTo(reservations, k) + if k == n then reservations[i].quantity else 0
  {
    var after := reservations[i := reservations[i].(shipment := Some(n))];
    forall k ensures LinkedTo(after, k) == LinkedTo(reservations, k) + if k == n then reservations[i].quantity else 0 {
      TotalSet(reservations, i, after[i], LinkOf(k));
    }
  }

  lemma NothingRidesYet(reservations: seq<Reservation>, lines: seq<LineRow>, shipments: seq<ShipmentRow>)
    requires ReservationsSound(reservations, lines, shipments)
    ensures LinkedTo(reservations, |shipments|) == 0
  {
    TotalZero(reservations, LinkOf(|shipments|));
    forall i | 0 <= i < |reservations| ensures LinkOf(|shipments|)(reservations[i]) == 0 {
      assert reservations[i] in reservations;
    }
  }

  lemma GroupIsSound(before: seq<Reservation>, after: seq<Reservation>, lines: seq<LineRow>,
                     earlier: seq<ShipmentRow>, shipments: seq<ShipmentRow>)
    requires ReservationsSound(before, lines, earlier) && ShipmentsSound(before, earlier)
    requires |shipments| == |earlier| + 1 && forall k :: 0 <= k < |earlier| ==> shipments[k] == earlier[k]
    requires |after| == |before|
    requires forall i :: 0 <= i < |after| && after[i] != before[i] ==>
      && after[i] == before[i].(shipment := Some(|earlier|))
      && before[i].store == shipments[|earlier|].store && before[i].product == shipments[|earlier|].product
    requires LinkedTo(after, |earlier|) == shipments[|earlier|].quantity
    requires forall k :: 0 <= k < |earlier| ==> LinkedTo(after, k) == LinkedTo(before, k)
    ensures ReservationsSound(after, lines, shipments) && ShipmentsSound(after, shipments)
  {
    hide LinkedTo;
    SameBacking(before, after);
    forall r | r in after ensures ReservationSound(r, lines, shipments) {
      var i :| 0 <= i < |after| && after[i] == r;
      assert before[i] in before;
    }
  }

  /** What shipping did to the reservations and shipments: each row that rides got one line of its
  store and product, everything else is as it was, and no store and product got two lines. */
  ghost predicate Materialized(before: Db, after: Db, session: Id, input: RunInput) {
    && |before.shipments| <= |after.shipments| && after.shipments[..|before.shipments|] == before.shipments
    && |after.reservations| == |before.reservations|
    && (forall i :: 0 <= i < |before.reservations| ==>
          if Rides(before.reservations[i], before.lines, before.runs.Keys, session, input)
          then OnNewLine(before, after, i) else after.reservations[i] == before.reservations[i])
    && LinesDistinct(after.shipments, |before.shipments|)
    && (forall k :: |before.shipments| <= k < |after.shipments| ==> after.shipments[k].run == session)
  }

  ghost predicate OnNewLine(before: Db, after: Db, i: nat)
    requires i < |before.reservations| == |after.reservations|
  {
    exists k: nat :: |before.shipments| <= k < |after.shipments| && after.reservations[i] == before.reservations[i].(shipment := Some(k))
  }

  ghost predicate LinesDistinct(shipments: seq<ShipmentRow>, from: nat) {
    forall k, l :: from <= k < l < |shipments| ==> shipments[k].store != shipments[l].store || shipments[k].product != shipments[l].product
  }

  /** Stores before `a` are shipped, and of store `a` the products before `b`. */
  ghost predicate Shipping(start: Db, now: Db, session: Id, input: RunInput, stores: seq<Id>, a: nat, products: seq<Id>, b: nat)
    requires a <= |stores| && b <= |products|
  {
    && now == start.(reservations := now.reservations, shipments := now.shipments)
    && Distinct(stores) && Distinct(products)
    && (forall r :: r in start.reservations && Rides(r, start.lines, start.runs.Keys, session, input) ==> r.store in stores)
    && |start.shipments| <= |now.shipments| && now.shipments[..|start.shipments|] == start.shipments
    && |now.reservations| == |start.reservations|
    && (forall i :: 0 <= i < |start.reservations| ==> ShippedSoFar(start, now, session, input, stores, a, products, b, i))
    && LinesDistinct(now.shipments, |start.shipments|)
    && (forall k :: |start.shipments| <= k < |now.shipments| ==>
          now.shipments[k].run == session && Reached(stores, a, products, b, now.shipments[k].store, now.shipments[k].product))
  }

  ghost predicate Reached(stores: seq<Id>, a: nat, products: seq<Id>, b: nat, store: Id, product: Id)
    requires a <= |stores| && b <= |products|
  {
    store in stores[..a] || (a < |stores| && store == stores[a] && product in products[..b])
  }

  ghost predicate ShippedSoFar(start: Db, now: Db, session: Id, input: RunInput, stores: seq<Id>, a: nat, products: seq<Id>, b: nat, i: nat)
    requires a <= |stores| && b <= |products| && i < |start.reservations| == |now.reservations|
  {
    var r := start.reservations[i];
    if Rides(r, start.lines, start.runs.Keys, session, input) && Reached(stores, a, products, b, r.store, r.product)
    then OnNewLine(start, now, i) else now.reservations[i] == r
  }

  lemma StoreStarts(start: Db, now: Db, session: Id, input: RunInput, stores: seq<Id>, a: nat, products: seq<Id>)
    requires a < |stores| && Distinct(products) && Shipping(start, now, session, input, stores, a, [], 0)
    requires forall p :: p in products <==> exists r ::
      r in now.reservations && r.store == stores[a] && r.product == p && Rides(r, now.lines, now.runs.Keys, session, input)
    ensures Shipping(start, now, session, input, stores, a, products, 0)
    ensures forall r :: r in start.reservations && r.store == stores[a] && Rides(r, start.lines, start.runs.Keys, session, input) ==> r.product in products
  {
    hide Rides, OnNewLine;
    forall r | r in start.reservations && r.store == stores[a] && Rides(r, start.lines, start.runs.Keys, session, input)
      ensures r.product in products
    {
      var i :| 0 <= i < |start.reservations| && start.reservations[i] == r;
      assert ShippedSoFar(start, now, session, input, stores, a, [], 0, i);
      assert !Reached(stores, a, [], 0, r.store, r.product);
      assert now.reservations[i] in now.reservations;
    }
    forall i | 0 <= i < |start.reservations| ensures ShippedSoFar(start, now, session, input, stores, a, products, 0, i) {
      assert ShippedSoFar(start, now, session, input, stores, a, [], 0, i);
    }
  }

  lemma StoreEnds(start: Db, now: Db, session: Id, input: RunInput, stores: seq<Id>, a: nat, products: seq<Id>)
    requires a < |stores| && Shipping(start, now, session, input, stores, a, products, |products|)
    requires forall r :: r in start.reservations && r.store == stores[a] && Rides(r, start.lines, start.runs.Keys, session, input) ==> r.product in products
    ensures Shipping(start, now, session, input, stores, a + 1, [], 0)
  {
    hide Rides, OnNewLine;
    var a' := a + 1;
    assert stores[..a'] == stores[..a] + [stores[a]] && products[..|products|] == products;
    forall i | 0 <= i < |start.reservations| ensures ShippedSoFar(start, now, session, input, stores, a', [], 0, i) {
      assert ShippedSoFar(start, now, session, input, stores, a, products, |products|, i);
      assert start.reservations[i] in start.reservations;
    }
  }

  lemma GroupShipped(start: Db, before: Db, now: Db, session: Id, input: RunInput, stores: seq<Id>, a: nat, products: seq<Id>, b: nat)
    requires a < |stores| && b < |products| && Shipping(start, before, session, input, stores, a, products, b)
    requires now == before.(reservations := now.reservations, shipments := now.shipments)
    requires |now.shipments| == |before.shipments| + 1 && now.shipments[..|before.shipments|] == before.shipments
    requires now.shipments[|before.shipments|] == ShipmentRow(session, stores[a], products[b], now.shipments[|before.shipments|].quantity)
    requires |now.reservations| == |before.reservations|
    requires forall i :: 0 <= i < |now.reservations| ==>
      now.reservations[i] == Shipped(before.reservations[i], Picked(before.reservations[i], before.lines, before.runs.Keys, session, input, stores[a], products[b]), |before.shipments|)
    ensures Shipping(start, now, session, input, stores, a, products, b + 1)
  {
    var n, b' := |before.shipments|, b + 1;
    assert products[..b'] == products[..b] + [products[b]];
    assert NotYet(stores, a, products, b) by { DistinctLater(stores, a, products, b); }
    forall k | 0 <= k < n ensures now.shipments[k] == before.shipments[k] {
      assert now.shipments[..n][k] == before.shipments[k];
    }
    forall i | 0 <= i < |start.reservations| ensures ShippedSoFar(start, now, session, input, stores, a, products, b', i) {
      assert ShippedSoFar(start, before, session, input, stores, a, products, b, i);
    }
    hide Rides, Picked, ShippedSoFar;
    assert now.shipments[..|start.shipments|] == start.shipments;
    assert LinesDistinct(now.shipments, |start.shipments|);
  }

  ghost predicate NotYet(stores: seq<Id>, a: nat, products: seq<Id>, b: nat)
    requires a < |stores| && b < |products|
  {
    !Reached(stores, a, products, b, stores[a], products[b])
  }

  lemma DistinctLater(stores: seq<Id>, a: nat, products: seq<Id>, b: nat)
    requires a < |stores| && b < |products| && Distinct(stores) && Distinct(products)
    ensures NotYet(stores, a, products, b)
  {
  }

  lemma AllShipped(start: Db, now: Db, session: Id, input: RunInput, stores: seq<Id>)
    requires Shipping(start, now, session, input, stores, |stores|, [], 0)
    ensures Materialized(start, now, session, input)
  {
    hide Rides, OnNewLine;
    assert stores[..|stores|] == stores;
    forall i | 0 <= i < |start.reservations|
      ensures if Rides(start.reservations[i], start.lines, start.runs.Keys, session, input)
              then OnNewLine(start, now, i) else now.reservations[i] == start.reservations[i]
    {
      assert ShippedSoFar(start, now, session, input, stores, |stores|, [], 0, i);
      assert start.reservations[i] in start.reservations;
    }
  }
}
