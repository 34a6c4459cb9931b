/** What a snapshot offers, told by the tables it finds. */
module StockOffering {
  import opened Common
  import opened Quantities
  import opened StockTables
  import opened StockSnapshot
  import opened StockOffers
  import opened LiveOffers
  import opened StockRefusals
  import P = PriorityPlanning
  import PP = PlanProperties
  import PM = PlanMeaning

  /** The tables, the session and the ids a snapshot can make offers with. */
  ghost predicate CanOffer(db: Db, session: Session, offerId: Id -> Id, processedAt: Instant) {
    && Inv(db) && FreshIds(offerId, db.offers) && Scheduled(session) && InTime(session, processedAt) && db.clock <= processedAt
  }

  /** A ticket as the planner sees it. */
  function SeenTicket(db: Db, t: nat): P.Ticket
    requires t < |db.tickets|
  {
    var w, owed := db.tickets[t], Owed(db.reservations, db.lines, t);
    P.Ticket(t, w.store, w.product, w.remaining + owed, owed, w.queuedAt, P.Active)
  }

  lemma {:induction false} WaitingAreSeen(db: Db, n: nat)
    requires n <= |db.tickets| && forall w :: w in db.tickets ==> TicketSound(w)
    ensures forall t: nat :: t < n && db.tickets[t].status == Waiting ==> SeenTicket(db, t) in WaitingTickets(db, n)
    ensures forall x :: x in WaitingTickets(db, n) ==> 0 <= x.id < n && db.tickets[x.id].status == Waiting && x == SeenTicket(db, x.id)
  {
    hide Owed;
    if n > 0 {
      WaitingAreSeen(db, n - 1);
      assert db.tickets[n - 1] in db.tickets;
    }
  }

  /** A waiting ticket may be offered exactly when no offer of it waits for an answer or for a run. */
  lemma FreeTicketsMayBeOffered(db: Db, session: Session, items: seq<SnapshotItem>, caps: map<Id, int>, offerId: Id -> Id, processedAt: Instant, t: nat)
    requires CanOffer(db, session, offerId, processedAt) && t < |db.tickets| && db.tickets[t].status == Waiting
    ensures P.Offerable(SnapshotInput(db, session, items, caps, offerId), SeenTicket(db, t))
      <==> forall o :: o in db.offers && o.ticket == t ==> !Live(o, db.lines)
  {
    var input := SnapshotInput(db, session, items, caps, offerId);
    OffersAreReadable(db.offers, db.lines, db.tickets, db.clock, session.businessDate);
    NoLaterOffers(db.offers, db.clock, session, processedAt);
    assert db.tickets[t].remaining > 0 by { assert TicketSound(db.tickets[t]); }
    assert forall o :: o in db.offers ==> OfferSound(o, db.tickets);
    LoadedAre(db.offers, db.lines, session.businessDate);
    LoadedMembers(db.offers, db.lines, session.businessDate);
    PM.WhoMayBeOffered(input, SeenTicket(db, t));
    hide P.Offerable, Inv, LoadedOffers, WaitingTickets, AlreadyReserved, OfferableStock, IsAllocated, BusinessDate, Owed;
    forall o | o in db.offers && o.ticket == t && Live(o, db.lines)
      ensures !P.Offerable(input, SeenTicket(db, t))
    {
      assert Seen(o, db.lines) in input.offers;
    }
  }

  /** No offer of the ticket waits for an answer or for a run. */
  ghost predicate IsFree(db: Db, t: Id) {
    forall o :: o in db.offers && o.ticket == t ==> o.status != Offered && (o.status == Accepted ==> IsAllocated(db.lines, o.id))
  }

  /** The rows a snapshot adds: each for a free waiting ticket, of its store and product, for part of what it
  waits for, held from the start, and with the session's dates. */
  lemma OfferedRowsAre(db: Db, session: Session, items: seq<SnapshotItem>, caps: map<Id, int>, offerId: Id -> Id, processedAt: Instant, r: OfferRow)
    requires CanOffer(db, session, offerId, processedAt)
    requires PP.WellKeyed(SnapshotInput(db, session, items, caps, offerId))
    requires P.Plan(SnapshotInput(db, session, items, caps, offerId)).Success?
    requires forall x :: x in P.Plan(SnapshotInput(db, session, items, caps, offerId)).value ==> x.offer.ticket >= 0
    requires r in OfferedRows(session, P.Plan(SnapshotInput(db, session, items, caps, offerId)).value)
    ensures r.ticket < |db.tickets| && IsFree(db, r.ticket)
    ensures var w := db.tickets[r.ticket];
      && w.status == Waiting && r.store == w.store && r.product == w.product
      && 0 < r.offered <= w.remaining == r.eligible && r.held == r.offered && r.accepted == 0 && r.status == Offered
    ensures r.id == offerId(r.ticket) && r.session == session.id && r.businessDate == session.businessDate
    ensures r.createdAt == session.snapshotDueAt && r.deadline == session.finalDueAt
  {
    hide P.Plan, PP.WellKeyed, SnapshotInput, Stocked, TicketsSound, ReservationsSound, ShipmentsSound, SnapshotsSound, IsAllocated,
         BusinessDate, HasProduct;
    var input := SnapshotInput(db, session, items, caps, offerId);
    var plan := P.Plan(input).value;
    PlannedRowsAreSound(db, session, items, caps, offerId);
    OffersAreReadable(db.offers, db.lines, db.tickets, db.clock, session.businessDate);
    NoLaterOffers(db.offers, db.clock, session, processedAt);
    PP.PlanOffersAreSound(input);
    InputIs(db, session, items, caps, offerId);
    var i :| 0 <= i < |plan| && OfferedRow(session, plan[i]) == r;
    var x := plan[i];
    assert x in plan;
    forall o | o in db.offers && o.ticket == r.ticket ensures o.status != Offered && (o.status == Accepted ==> IsAllocated(db.lines, o.id)) {
      PlannedTicketIsFree(db, session, items, caps, offerId, x, o);
    }
  }

  /** Offered to a ticket by these rows. */
  function OfferedTo(rows: seq<OfferRow>, t: Id): nat {
    Total(rows, (r: OfferRow) => if r.ticket == t then r.offered else 0)
  }

  lemma RowsOfferThePlan(session: Session, plan: seq<P.PlannedOffer>, t: Id)
    requires forall x :: x in plan ==> x.offer.ticket >= 0
    ensures OfferedTo(OfferedRows(session, plan), t) == PM.OfferedTo(plan, t)
  {
    TotalSame(OfferedRows(session, plan), (r: OfferRow) => if r.ticket == t then r.offered else 0,
              plan, (x: P.PlannedOffer) => if x.offer.ticket == t then x.offer.offered else 0);
  }

  /** Of two free waits for a product the older one - of the same age the one of the smaller store, then the
  one with the smaller number - is offered at least what the other is, up to all it waits for, and at most
  one bag more while the other waits for more. */
  lemma OlderWaitIsServedFirst(db: Db, session: Session, items: seq<SnapshotItem>, caps: map<Id, int>, offerId: Id -> Id, processedAt: Instant,
                               t: nat, u: nat)
    requires CanOffer(db, session, offerId, processedAt)
    requires PP.WellKeyed(SnapshotInput(db, session, items, caps, offerId))
    requires P.Plan(SnapshotInput(db, session, items, caps, offerId)).Success?
    requires forall x :: x in P.Plan(SnapshotInput(db, session, items, caps, offerId)).value ==> x.offer.ticket >= 0
    requires t < |db.tickets| && db.tickets[t].status == Waiting && IsFree(db, t)
    requires u < |db.tickets| && db.tickets[u].status == Waiting && IsFree(db, u) && db.tickets[t].product == db.tickets[u].product
    requires var a, b := db.tickets[t], db.tickets[u];
      || a.queuedAt < b.queuedAt
      || (a.queuedAt == b.queuedAt && (a.store < b.store || (a.store == b.store && t < u)))
    ensures var rows := OfferedRows(session, P.Plan(SnapshotInput(db, session, items, caps, offerId)).value);
      && Min(db.tickets[t].remaining, OfferedTo(rows, u)) <= OfferedTo(rows, t)
      && (OfferedTo(rows, t) <= OfferedTo(rows, u) + 1 || OfferedTo(rows, u) == db.tickets[u].remaining)
  {
    hide P.Plan, P.Offerable, PP.WellKeyed, OfferedTo, PM.OfferedTo, Owed, IsAllocated, Stocked, TicketsSound, OffersSound, ReservationsSound,
         ShipmentsSound, SnapshotsSound, ClaimsSound, OfferedRows, BusinessDate, LoadedOffers, AlreadyReserved, OfferableStock, WaitingTickets, FreshIds;
    var input := SnapshotInput(db, session, items, caps, offerId);
    FreeTicketsMayBeOffered(db, session, items, caps, offerId, processedAt, t);
    FreeTicketsMayBeOffered(db, session, items, caps, offerId, processedAt, u);
    assert forall w :: w in db.tickets ==> TicketSound(w) by { TicketsAre(db); }
    WaitingAreSeen(db, |db.tickets|);
    PM.EarlierRequestIsServedFirst(input, SeenTicket(db, t), SeenTicket(db, u));
    RowsOfferThePlan(session, P.Plan(input).value, t);
    RowsOfferThePlan(session, P.Plan(input).value, u);
  }

  lemma TicketsAre(db: Db)
    requires Inv(db)
    ensures forall w :: w in db.tickets ==> TicketSound(w)
  {
  }

  // ---------------------------------------------------------------------------------------------
  // How much a product offers
  // ---------------------------------------------------------------------------------------------

  /** Lacked by free waits for a product, among the first `n` tickets. */
  ghost function WantedOf(db: Db, product: Id, n: nat): nat
    requires n <= |db.tickets|
  {
    if n == 0 then 0
    else
      var w := db.tickets[n - 1];
      WantedOf(db, product, n - 1) + if w.status == Waiting && w.product == product && IsFree(db, n - 1) then w.remaining else 0
  }

  /** Claimed of a product by offers that do not hold their stock: accepted and not allocated, or still to be
  answered. */
  ghost function UnheldOf(db: Db, product: Id, at: Instant): OfferRow -> nat {
    (o: OfferRow) =>
      if o.product != product || o.held > 0 then 0
      else if o.status == Accepted && !IsAllocated(db.lines, o.id) then o.accepted
      else if o.status == Offered && at < o.deadline then o.offered
      else 0
  }

  lemma {:induction false} WaitingLacks(db: Db, session: Session, items: seq<SnapshotItem>, caps: map<Id, int>, offerId: Id -> Id,
                                        processedAt: Instant, product: Id, n: nat)
    requires CanOffer(db, session, offerId, processedAt) && n <= |db.tickets|
    ensures Total(WaitingTickets(db, n), PM.LackedOf(SnapshotInput(db, session, items, caps, offerId), product)) == WantedOf(db, product, n)
  {
    hide P.Offerable, Inv, FreshIds, IsAllocated, Owed, SnapshotInput, Total, Scheduled, InTime;
    var input := SnapshotInput(db, session, items, caps, offerId);
    var f := PM.LackedOf(input, product);
    if n > 0 {
      WaitingLacks(db, session, items, caps, offerId, processedAt, product, n - 1);
      var t := n - 1;
      TicketsAre(db);
      assert TicketSound(db.tickets[t]) by { assert db.tickets[t] in db.tickets; }
      if db.tickets[t].status == Waiting {
        FreeTicketsMayBeOffered(db, session, items, caps, offerId, processedAt, t);
        assert P.Offerable(input, SeenTicket(db, t)) <==> IsFree(db, t);
        TotalPush(WaitingTickets(db, t), SeenTicket(db, t), f);
        assert WaitingTickets(db, n) == WaitingTickets(db, t) + [SeenTicket(db, t)];
      } else {
        assert WaitingTickets(db, n) == WaitingTickets(db, t);
      }
    } else {
      assert Total(WaitingTickets(db, 0), f) == 0 by { TotalZero(WaitingTickets(db, 0), f); }
    }
  }

  /** The planner's claims beyond the reserved ones are those of offers that hold nothing. */
  lemma UnheldClaims(db: Db, session: Session, items: seq<SnapshotItem>, caps: map<Id, int>, offerId: Id -> Id, processedAt: Instant, product: Id)
    requires CanOffer(db, session, offerId, processedAt)
    ensures var input := SnapshotInput(db, session, items, caps, offerId);
      Total(input.offers, PM.ClaimedOf(input, product)) == Total(db.offers, UnheldOf(db, product, session.snapshotDueAt))
  {
    hide BusinessDate;
    var input := SnapshotInput(db, session, items, caps, offerId);
    OffersAreReadable(db.offers, db.lines, db.tickets, db.clock, session.businessDate);
    NoLaterOffers(db.offers, db.clock, session, processedAt);
    hide Inv, IsAllocated, FreshIds, WaitingTickets, OfferableStock, LoadedOffers;
    forall o | o in db.offers ensures PM.ClaimedOf(input, product)(Seen(o, db.lines)) == UnheldOf(db, product, session.snapshotDueAt)(o) {
      ReservedIs(db, session.businessDate, o);
    }
    SeenTotal(db.offers, db.lines, session.businessDate, PM.ClaimedOf(input, product), UnheldOf(db, product, session.snapshotDueAt));
  }

  lemma ReservedIs(db: Db, businessDate: int, o: OfferRow)
    requires Inv(db) && o in db.offers && o.businessDate <= businessDate
    ensures o.id in AlreadyReserved(db.offers, db.lines, businessDate) <==> IsAllocated(db.lines, o.id) || o.held > 0
  {
    hide Stocked, TicketsSound, OffersSound, ReservationsSound, ShipmentsSound, SnapshotsSound, IsAllocated, OneLive, LinesNamed, LinesPlaced, Dated;
    if o.id in AlreadyReserved(db.offers, db.lines, businessDate) {
      var x :| x in db.offers && x.id == o.id && (IsAllocated(db.lines, x.id) || (x.held > 0 && x.businessDate <= businessDate));
      var i :| 0 <= i < |db.offers| && db.offers[i] == o;
      var j :| 0 <= j < |db.offers| && db.offers[j] == x;
      assert i == j;
    }
  }

  lemma {:induction false} SeenTotal(offers: seq<OfferRow>, lines: seq<LineRow>, businessDate: int, f: P.Offer -> nat, g: OfferRow -> nat)
    requires forall o :: o in offers ==> o.businessDate <= businessDate && f(Seen(o, lines)) == g(o)
    ensures Total(LoadedOffers(offers, lines, businessDate), f) == Total(offers, g)
  {
    hide Seen;
    if |offers| > 0 {
      var front, o := offers[..|offers| - 1], offers[|offers| - 1];
      assert o in offers && forall y :: y in front ==> y in offers;
      SeenTotal(front, lines, businessDate, f, g);
      TotalPush(LoadedOffers(front, lines, businessDate), Seen(o, lines), f);
    }
  }

  /** Of each product listed, a snapshot offers what it shows as far as that is free - up to the supplier's
  free stock where there is a cap, less what offers claim without holding it - and no more than the free
  waits for the product lack. */
  lemma FreeStockIsOffered(db: Db, session: Session, items: seq<SnapshotItem>, caps: map<Id, int>, offerId: Id -> Id, processedAt: Instant, k: nat)
    requires CanOffer(db, session, offerId, processedAt) && ItemsDistinct(items) && k < |items|
    requires PP.WellKeyed(SnapshotInput(db, session, items, caps, offerId))
    requires P.Plan(SnapshotInput(db, session, items, caps, offerId)).Success?
    requires forall x :: x in P.Plan(SnapshotInput(db, session, items, caps, offerId)).value ==> x.offer.ticket >= 0
    ensures var rows := OfferedRows(session, P.Plan(SnapshotInput(db, session, items, caps, offerId)).value);
      var product, b := items[k].product, BalanceOf(db.balances, items[k].product);
      var free := b.onHand - b.reserved;
      var capped := if product in caps then Min(caps[product], free) else free;
      Total(rows, (r: OfferRow) => if r.product == product then r.offered else 0)
      == Min(Max(0, Min(items[k].available, capped) - Total(db.offers, UnheldOf(db, product, session.snapshotDueAt))),
             WantedOf(db, product, |db.tickets|))
  {
    hide P.Plan, PP.WellKeyed, LoadedOffers, AlreadyReserved, WaitingTickets, WantedOf, Inv, FreshIds, Scheduled, InTime;
    var input, product := SnapshotInput(db, session, items, caps, offerId), items[k].product;
    var plan := P.Plan(input).value;
    PM.UnclaimedStockIsOffered(input, product, k);
    WaitingLacks(db, session, items, caps, offerId, processedAt, product, |db.tickets|);
    UnheldClaims(db, session, items, caps, offerId, processedAt, product);
    TotalSame(OfferedRows(session, plan), (r: OfferRow) => if r.product == product then r.offered else 0,
              plan, (x: P.PlannedOffer) => if x.offer.product == product then x.offer.offered else 0);
  }
}
