/** Issuing what a run reserved for a store: all of it with one order. */
module StockIssue {
  import opened Common
  import opened Quantities
  import opened StockTables

  /** A hold of the store's result of a run that was not issued yet. */
  predicate InResult(r: Reservation, lines: seq<LineRow>, run: Id, store: Id) {
    r.status == Reserved && r.store == store && r.line < |lines| && lines[r.line].run == run && lines[r.line].store == store
  }

  lemma ResultMembers(lines: seq<LineRow>, run: Id, store: Id)
    ensures forall r: Reservation ::
      InResult(r, lines, run, store) <==> r.status == Reserved && r.line < |lines| && lines[r.line].run == run && lines[r.line].store == store == r.store
  {
  }

  function HoldOf(lines: seq<LineRow>, run: Id, store: Id, product: Id): Reservation -> nat {
    (r: Reservation) => if InResult(r, lines, run, store) && r.product == product then r.quantity else 0
  }

  /** Held of a product by the store's result. */
  function ResultHolds(reservations: seq<Reservation>, lines: seq<LineRow>, run: Id, store: Id, product: Id): nat {
    Total(reservations, HoldOf(lines, run, store, product))
  }

  function IssuedRow(r: Reservation, lines: seq<LineRow>, run: Id, store: Id, products: seq<Id>): Reservation {
    if InResult(r, lines, run, store) && r.product in products then r.(status := Issued) else r
  }

  /** The reservations once those of these products are issued. */
  function IssuedRows(reservations: seq<Reservation>, lines: seq<LineRow>, run: Id, store: Id, products: seq<Id>): (r: seq<Reservation>)
    ensures |r| == |reservations|
  {
    seq(|reservations|, i requires 0 <= i < |reservations| => IssuedRow(reservations[i], lines, run, store, products))
  }

  lemma SameLinks(a: seq<Reservation>, b: seq<Reservation>)
    requires |a| == |b|
    requires forall i :: 0 <= i < |a| ==> a[i].shipment == b[i].shipment && a[i].quantity == b[i].quantity
    ensures forall k :: LinkedTo(a, k) == LinkedTo(b, k)
  {
    forall k ensures LinkedTo(a, k) == LinkedTo(b, k) {
      TotalSame(a, LinkOf(k), b, LinkOf(k));
    }
  }


  lemma IssuedIsSound(reservations: seq<Reservation>, lines: seq<LineRow>, shipments: seq<ShipmentRow>, run: Id, store: Id, products: seq<Id>)
    requires ReservationsSound(reservations, lines, shipments) && ShipmentsSound(reservations, shipments)
    ensures var after := IssuedRows(reservations, lines, run, store, products);
      ReservationsSound(after, lines, shipments) && ShipmentsSound(after, shipments)
  {
    hide LinkedTo, InResult;
    var after := IssuedRows(reservations, lines, run, store, products);
    SameLinks(reservations, after);
    forall r | r in after ensures ReservationSound(r, lines, shipments) {
      var i :| 0 <= i < |after| && after[i] == r;
      assert reservations[i] in reservations;
    }
    SameBacking(reservations, after);
  }

  /** Issuing a product lowers its active reservations by the result's holds, and no other product's. */
  lemma ProductIssued(reservations: seq<Reservation>, after: seq<Reservation>, lines: seq<LineRow>, run: Id, store: Id, product: Id)
    requires |after| == |reservations|
    requires forall i :: 0 <= i < |after| ==> after[i] == IssuedRow(reservations[i], lines, run, store, [product])
    ensures forall q :: ActivelyReserved(after, q) + (if q == product then ResultHolds(reservations, lines, run, store, product) else 0)
                     == ActivelyReserved(reservations, q)
  {
    forall q ensures ActivelyReserved(after, q) + (if q == product then ResultHolds(reservations, lines, run, store, product) else 0)
                  == ActivelyReserved(reservations, q)
    {
      if q == product {
        TotalPlus(after, ReservedOf(q), reservations, HoldOf(lines, run, store, q), reservations, ReservedOf(q));
      } else {
        TotalSame(after, ReservedOf(q), reservations, ReservedOf(q));
      }
    }
  }

  /** So its goods leave the hand and the reserved stock together, and the movement is allowed. */
  lemma IssueAllowed(balances: Balances, offers: seq<OfferRow>, reservations: seq<Reservation>, after: seq<Reservation>, product: Id, n: nat)
    requires Stocked(balances, offers, reservations, NOTHING)
    requires forall q :: ActivelyReserved(after, q) + (if q == product then n else 0) == ActivelyReserved(reservations, q)
    ensures Allowed(balances, product, 0 - n, 0 - n)
    ensures Stocked(Moved(balances, product, 0 - n, 0 - n), offers, after, NOTHING)
  {
    hide ActivelyReserved, Held;
    assert Covered(balances, offers, reservations, NOTHING, product);
    var balances' := Moved(balances, product, 0 - n, 0 - n);
    forall q ensures Covered(balances', offers, after, NOTHING, q) {
      assert Covered(balances, offers, reservations, NOTHING, q);
    }
  }

  function Lowered(b: Balance, n: nat): Balance {
    Balance(Monus(b.onHand, n), Monus(b.reserved, n))
  }

  /** What a result holds is part of the reserved stock. */
  lemma HoldsAreReserved(db: Db, run: Id, store: Id)
    requires Stocked(db.balances, db.offers, db.reservations, NOTHING)
    ensures forall p :: ResultHolds(db.reservations, db.lines, run, store, p) <= BalanceOf(db.balances, p).reserved <= BalanceOf(db.balances, p).onHand
  {
    forall p ensures ResultHolds(db.reservations, db.lines, run, store, p) <= BalanceOf(db.balances, p).reserved <= BalanceOf(db.balances, p).onHand {
      assert Covered(db.balances, db.offers, db.reservations, NOTHING, p);
      ProductIssued(db.reservations, IssuedRows(db.reservations, db.lines, run, store, [p]), db.lines, run, store, p);
    }
  }

  /** Products of the result listed, nothing of it is left. */
  lemma AllIssued(reservations: seq<Reservation>, lines: seq<LineRow>, run: Id, store: Id, products: seq<Id>)
    requires forall p :: p in products <==> exists r :: r in reservations && r.product == p && InResult(r, lines, run, store)
    ensures forall i :: 0 <= i < |reservations| ==>
      IssuedRows(reservations, lines, run, store, products)[i]
      == if InResult(reservations[i], lines, run, store) then reservations[i].(status := Issued) else reservations[i]
    ensures forall p :: p !in products ==> ResultHolds(reservations, lines, run, store, p) == 0
  {
    hide InResult;
    assert forall i :: 0 <= i < |reservations| ==> reservations[i] in reservations;
    forall p | p !in products ensures ResultHolds(reservations, lines, run, store, p) == 0 {
      NothingHeld(reservations, lines, run, store, p);
    }
  }

  /** One more product. */
  lemma NextIssued(start: seq<Reservation>, lines: seq<LineRow>, run: Id, store: Id, products: seq<Id>, k: nat)
    requires k < |products| && products[k] !in products[..k]
    ensures var before, after := IssuedRows(start, lines, run, store, products[..k]), IssuedRows(start, lines, run, store, products[..k + 1]);
      && (forall i :: 0 <= i < |start| ==> after[i] == IssuedRow(before[i], lines, run, store, [products[k]]))
      && ResultHolds(before, lines, run, store, products[k]) == ResultHolds(start, lines, run, store, products[k])
  {
    var before, front, through := IssuedRows(start, lines, run, store, products[..k]), products[..k], products[..k + 1];
    assert through == front + [products[k]];
    TotalSame(before, HoldOf(lines, run, store, products[k]), start, HoldOf(lines, run, store, products[k]));
  }

  /** A product the result holds nothing of. */
  lemma NothingHeld(reservations: seq<Reservation>, lines: seq<LineRow>, run: Id, store: Id, product: Id)
    requires forall r :: r in reservations && InResult(r, lines, run, store) ==> r.product != product
    ensures ResultHolds(reservations, lines, run, store, product) == 0
  {
    TotalZero(reservations, HoldOf(lines, run, store, product));
  }

  /** The first `k` products are issued: their goods have left, and the stock is covered. */
  ghost predicate Issuing(start: Db, balances: Balances, reservations: seq<Reservation>, run: Id, store: Id, products: seq<Id>, k: nat)
    requires k <= |products|
  {
    && reservations == IssuedRows(start.reservations, start.lines, run, store, products[..k])
    && Stocked(balances, start.offers, reservations, NOTHING)
    && forall p :: IssuedBalance(start, balances, run, store, p, products[..k])
  }

  ghost predicate IssuedBalance(start: Db, balances: Balances, run: Id, store: Id, p: Id, issued: seq<Id>) {
    BalanceOf(balances, p) == Lowered(BalanceOf(start.balances, p), if p in issued then ResultHolds(start.reservations, start.lines, run, store, p) else 0)
  }

  lemma IssuingStarts(start: Db, run: Id, store: Id, products: seq<Id>)
    requires Stocked(start.balances, start.offers, start.reservations, NOTHING)
    ensures Issuing(start, start.balances, start.reservations, run, store, products, 0)
  {
    hide Stocked, ResultHolds, InResult;
    assert start.reservations == IssuedRows(start.reservations, start.lines, run, store, products[..0]);
  }

  lemma IssuingStep(start: Db, balances: Balances, reservations: seq<Reservation>, run: Id, store: Id, products: seq<Id>, k: nat)
    requires k < |products| && Issuing(start, balances, reservations, run, store, products, k)
    requires forall i, j :: 0 <= i < j < |products| ==> products[i] != products[j]
    ensures var p, n := products[k], ResultHolds(reservations, start.lines, run, store, products[k]);
      && Allowed(balances, p, 0 - n, 0 - n)
      && Issuing(start, Moved(balances, p, 0 - n, 0 - n), IssuedRows(reservations, start.lines, run, store, [p]), run, store, products, k + 1)
  {
    hide Stocked, ResultHolds, InResult, IssuedRow, IssuedRows, IssuedBalance, Moved, Allowed;
    var p := products[k];
    var n: int := ResultHolds(reservations, start.lines, run, store, p);
    NextRows(start, reservations, run, store, products, k);
    ProductIssued(reservations, IssuedRows(reservations, start.lines, run, store, [p]), start.lines, run, store, p);
    IssueAllowed(balances, start.offers, reservations, IssuedRows(reservations, start.lines, run, store, [p]), p, n);
    NextBalances(start, balances, Moved(balances, p, -n, -n), run, store, products[..k], p, n, products[..k + 1]);
  }

  lemma NextRows(start: Db, reservations: seq<Reservation>, run: Id, store: Id, products: seq<Id>, k: nat)
    requires k < |products| && reservations == IssuedRows(start.reservations, start.lines, run, store, products[..k])
    requires forall i, j :: 0 <= i < j < |products| ==> products[i] != products[j]
    ensures products[..k + 1] == products[..k] + [products[k]] && products[k] !in products[..k]
    ensures var after := IssuedRows(reservations, start.lines, run, store, [products[k]]);
      && after == IssuedRows(start.reservations, start.lines, run, store, products[..k + 1])
      && forall i :: 0 <= i < |reservations| ==> after[i] == IssuedRow(reservations[i], start.lines, run, store, [products[k]])
    ensures ResultHolds(reservations, start.lines, run, store, products[k]) == ResultHolds(start.reservations, start.lines, run, store, products[k])
  {
    hide ResultHolds, InResult, IssuedRow;
    NextIssued(start.reservations, start.lines, run, store, products, k);
  }

  lemma NextBalances(start: Db, balances: Balances, lowered: Balances, run: Id, store: Id, issued: seq<Id>, p: Id, n: nat, after: seq<Id>)
    requires forall q :: IssuedBalance(start, balances, run, store, q, issued)
    requires after == issued + [p] && p !in issued
    requires Allowed(balances, p, 0 - n, 0 - n) && lowered == Moved(balances, p, 0 - n, 0 - n)
    requires n == ResultHolds(start.reservations, start.lines, run, store, p)
    ensures forall q :: IssuedBalance(start, lowered, run, store, q, after)
  {
    hide ResultHolds;
    forall q ensures IssuedBalance(start, lowered, run, store, q, after) {
      assert IssuedBalance(start, balances, run, store, q, issued);
    }
  }

  lemma IssuingEnds(start: Db, balances: Balances, reservations: seq<Reservation>, run: Id, store: Id, products: seq<Id>)
    requires Issuing(start, balances, reservations, run, store, products, |products|)
    requires forall p :: p in products <==> exists r :: r in start.reservations && r.product == p && InResult(r, start.lines, run, store)
    ensures reservations == IssuedRows(start.reservations, start.lines, run, store, products)
    ensures Stocked(balances, start.offers, reservations, NOTHING)
    ensures forall i :: 0 <= i < |start.reservations| ==>
      reservations[i] == if InResult(start.reservations[i], start.lines, run, store) then start.reservations[i].(status := Issued) else start.reservations[i]
    ensures forall p :: BalanceOf(balances, p) == Lowered(BalanceOf(start.balances, p), ResultHolds(start.reservations, start.lines, run, store, p))
  {
    hide Stocked, ResultHolds, InResult, IssuedRows;
    assert products[..|products|] == products;
    AllIssued(start.reservations, start.lines, run, store, products);
    forall p ensures BalanceOf(balances, p) == Lowered(BalanceOf(start.balances, p), ResultHolds(start.reservations, start.lines, run, store, p)) {
      assert IssuedBalance(start, balances, run, store, p, products[..|products|]);
    }
  }
}
