/** How the snapshot job sees the tables, and how a store's answer changes an offer. */
module StockSnapshot {
  import opened Common
  import opened Quantities
  import opened StockTables
  import P = PriorityPlanning
  import PP = PlanProperties

  /** A session as a job was given it. */
  datatype Session = Session(id: Id, businessDate: int, snapshotDueAt: Instant, finalDueAt: Instant, policy: Id)

  /** A session as it is stored now; a job runs it while it is open, closed or being allocated. */
  datatype SessionRow = SessionRow(session: Session, runnable: bool)

  predicate Matches(row: SessionRow, session: Session) {
    row.session == session && row.runnable
  }

  /** A session is created with both its times on its business date. */
  predicate Scheduled(session: Session) {
    BusinessDate(session.snapshotDueAt) == session.businessDate == BusinessDate(session.finalDueAt)
  }

  // ---------------------------------------------------------------------------------------------
  // Offers
  // ---------------------------------------------------------------------------------------------

  /** The offer covered everything the ticket waited for, and still does. */
  predicate Full(o: OfferRow, t: TicketRow) {
    o.eligible <= o.offered && t.remaining <= o.offered
  }

  /** Ending this offer ends the wait. */
  predicate EndsWait(o: OfferRow, t: TicketRow, offers: seq<OfferRow>, lines: seq<LineRow>) {
    t.status == Waiting && Full(o, t) && !exists x :: x in offers && x.ticket == o.ticket && Live(x, lines)
  }

  /** A wait ends with an offer that covered it all, at the time and still, when no other offer of the
  ticket waits for an answer or for a run. */
  lemma WhenWaitsEnd(o: OfferRow, t: TicketRow, offers: seq<OfferRow>, lines: seq<LineRow>)
    ensures EndsWait(o, t, offers, lines)
      <==> && t.status == Waiting && o.eligible <= o.offered && t.remaining <= o.offered
           && (forall x :: x in offers && x.ticket == o.ticket ==> x.status != Offered && (x.status == Accepted ==> IsAllocated(lines, x.id)))
  {
    hide IsAllocated;
  }

  datatype Action = Accept(quantity: int) | Decline | Expire

  datatype ResponseError = OfferConflict | ResponseInvalid | OfferMissing

  datatype Response = Responded(status: OfferStatus, accepted: nat) | Rejected(error: ResponseError)

  /** What an answer makes of an offer.  Acceptance is for all of it, in time, and never for more than
  the ticket still waits for; an answer to a wait that ended withdraws the offer, a late one lets it
  expire, and nothing expires early. */
  function PlanResponse(o: OfferRow, t: TicketRow, action: Action, now: Instant): (r: Response)
    ensures r.Responded? ==> o.status == Offered && r.status != Offered
    ensures r.Responded? && r.status == Accepted <==>
      o.status == Offered && t.status == Waiting && now < o.deadline && action == Accept(o.offered) && o.offered <= t.remaining
    ensures r.Responded? && r.status == Declined <==>
      o.status == Offered && t.status == Waiting && now < o.deadline && action == Decline
    ensures r.Responded? && r.status == Expired <==> o.status == Offered && t.status == Waiting && o.deadline <= now
    ensures r.Responded? && r.status == Withdrawn <==> o.status == Offered && t.status != Waiting
    ensures r.Responded? ==> r.accepted == if r.status == Accepted then o.offered else 0
  {
    if o.status != Offered then Rejected(OfferConflict)
    else if t.status != Waiting then Responded(Withdrawn, 0)
    else if o.deadline <= now then Responded(Expired, 0)
    else if action.Expire? then Rejected(OfferConflict)
    else if action.Decline? then Responded(Declined, 0)
    else if action.quantity != o.offered then Rejected(ResponseInvalid)
    else if t.remaining < o.offered then Rejected(OfferConflict)
    else Responded(Accepted, o.offered)
  }

  function Answered(o: OfferRow, r: Response): OfferRow
    requires r.Responded?
  {
    o.(status := r.status, accepted := r.accepted, held := if r.status == Accepted then o.held else 0)
  }

  // ---------------------------------------------------------------------------------------------
  // The planner's view
  // ---------------------------------------------------------------------------------------------

  /** Goods allocated to a ticket and not received. */
  function Owed(reservations: seq<Reservation>, lines: seq<LineRow>, ticket: nat): nat {
    Total(reservations, (r: Reservation) =>
      if r.line < |lines| && lines[r.line].source.ForOffer? && lines[r.line].source.ticket == ticket then r.quantity else 0)
  }

  /** The first `n` tickets as the planner sees them; only those that wait. */
  function WaitingTickets(db: Db, n: nat): seq<P.Ticket>
    requires n <= |db.tickets|
  {
    if n == 0 then []
    else
      var t := db.tickets[n - 1];
      var owed := Owed(db.reservations, db.lines, n - 1);
      WaitingTickets(db, n - 1)
      + if t.status == Waiting && t.remaining > 0
        then [P.Ticket(n - 1, t.store, t.product, t.remaining + owed, owed, t.queuedAt, P.Active)] else []
  }

  function DomainStatus(o: OfferRow, allocatedAlready: bool): P.OfferStatus {
    if allocatedAlready then P.Consumed
    else
      match o.status
      case Offered => P.Pending
      case Accepted => P.Confirmed
      case Declined => P.Declined
      case Expired => P.Expired
      case Withdrawn => P.Expired
  }

  /** What the planner sees of an offer. */
  function Seen(o: OfferRow, lines: seq<LineRow>): P.Offer {
    P.Offer(o.id, o.ticket, o.store, o.product, o.businessDate, o.offered, o.accepted, o.createdAt, o.deadline,
            DomainStatus(o, IsAllocated(lines, o.id)))
  }

  /** Offers up to the session's business date. */
  function LoadedOffers(offers: seq<OfferRow>, lines: seq<LineRow>, businessDate: int): seq<P.Offer> {
    if |offers| == 0 then []
    else
      var o := offers[|offers| - 1];
      LoadedOffers(offers[..|offers| - 1], lines, businessDate)
      + if o.businessDate <= businessDate
        then [Seen(o, lines)] else []
  }

  /** Only an accepted offer can have been allocated; anything else the job refuses to read. */
  predicate Readable(offers: seq<OfferRow>, lines: seq<LineRow>, businessDate: int) {
    forall o :: o in offers && o.businessDate <= businessDate && IsAllocated(lines, o.id) ==> o.status == Accepted
  }

  /** Offers whose claim the balances already show. */
  function AlreadyReserved(offers: seq<OfferRow>, lines: seq<LineRow>, businessDate: int): set<Id> {
    set o | o in offers && (IsAllocated(lines, o.id) || (o.held > 0 && o.businessDate <= businessDate)) :: o.id
  }

  /** Free stock now, capped by the supplier's free stock where there is a cap. */
  function FreeStock(balances: Balances, caps: map<Id, int>, product: Id): int {
    var b := BalanceOf(balances, product);
    var free := b.onHand - b.reserved;
    if product in caps && caps[product] < free then caps[product] else free
  }

  function OfferableStock(balances: Balances, caps: map<Id, int>, items: seq<SnapshotItem>): (r: seq<P.ProductSnapshot>)
    ensures |r| == |items|
  {
    seq(|items|, i requires 0 <= i < |items| =>
      var free := FreeStock(balances, caps, items[i].product);
      P.ProductSnapshot(items[i].product, if items[i].available < free then items[i].available else free))
  }

  function SnapshotInput(db: Db, session: Session, items: seq<SnapshotItem>, caps: map<Id, int>, offerId: Id -> Id): P.PlanInput {
    P.PlanInput(session.businessDate, session.snapshotDueAt, session.finalDueAt,
                OfferableStock(db.balances, caps, items), WaitingTickets(db, |db.tickets|),
                LoadedOffers(db.offers, db.lines, session.businessDate),
                AlreadyReserved(db.offers, db.lines, session.businessDate), offerId)
  }

  /** The row of a planned offer: it holds all of its stock from the start. */
  function OfferedRow(session: Session, x: P.PlannedOffer): OfferRow
    requires x.offer.ticket >= 0
  {
    OfferRow(x.offer.id, session.id, x.offer.ticket, x.offer.store, x.offer.product, x.offer.businessDate,
             x.offer.offered, x.eligibleAtOffer, x.offer.offered, 0, x.offer.createdAt, x.offer.expiresAt, Offered)
  }

  function OfferedRows(session: Session, plan: seq<P.PlannedOffer>): (r: seq<OfferRow>)
    requires forall x :: x in plan ==> x.offer.ticket >= 0
    ensures |r| == |plan|
  {
    seq(|plan|, i requires 0 <= i < |plan| => OfferedRow(session, plan[i]))
  }

  lemma {:induction false} WaitingTicketsAre(db: Db, n: nat)
    requires n <= |db.tickets|
    ensures forall t :: t in WaitingTickets(db, n) ==>
      && 0 <= t.id < n && t.store == db.tickets[t.id].store && t.product == db.tickets[t.id].product
      && db.tickets[t.id].status == Waiting && t.open == t.reserved + db.tickets[t.id].remaining
    ensures P.UniqueTickets(WaitingTickets(db, n))
  {
    if n > 0 {
      WaitingTicketsAre(db, n - 1);
      var before := WaitingTickets(db, n - 1);
      assert forall i :: 0 <= i < |before| ==> before[i] in before;
    }
  }

  lemma {:induction false} StockWithin(input: P.PlanInput, snapshots: seq<P.ProductSnapshot>, product: Id, bound: nat)
    requires forall s :: s in snapshots && s.product == product ==> s.available <= bound
    ensures P.StockIn(input, snapshots, product) <= bound
  {
    hide P.ProductClaim;
    if |snapshots| > 0 {
      StockWithin(input, snapshots[..|snapshots| - 1], product, bound);
    }
  }

  /** Every prefix of the plan fits into the free stock. */
  lemma {:induction false} PlannedSoFar(plan: seq<P.PlannedOffer>, i: nat, product: Id)
    requires i <= |plan|
    ensures PP.PlannedFor(plan[..i], product) <= PP.PlannedFor(plan, product)
  {
    TotalAppend(plan[..i], plan[i..], (x: P.PlannedOffer) => if x.offer.product == product then x.offer.offered else 0);
    assert plan[..i] + plan[i..] == plan;
  }

  /** The plan never offers more of a product than is free. */
  lemma PlanFitsFreeStock(db: Db, session: Session, items: seq<SnapshotItem>, caps: map<Id, int>, offerId: Id -> Id, product: Id)
    requires BalanceOf(db.balances, product).reserved <= BalanceOf(db.balances, product).onHand
    requires PP.WellKeyed(SnapshotInput(db, session, items, caps, offerId))
    requires P.Plan(SnapshotInput(db, session, items, caps, offerId)).Success?
    ensures PP.PlannedFor(P.Plan(SnapshotInput(db, session, items, caps, offerId)).value, product)
         <= BalanceOf(db.balances, product).onHand - BalanceOf(db.balances, product).reserved
  {
    hide P.Plan, P.Queue, P.Claims, P.StockIn, PP.PlannedFor, PP.WellKeyed, LoadedOffers, WaitingTickets, AlreadyReserved;
    var input := SnapshotInput(db, session, items, caps, offerId);
    PP.PlanUsesTheStock(input, product);
    StockWithin(input, input.snapshots, product, BalanceOf(db.balances, product).onHand - BalanceOf(db.balances, product).reserved);
  }

  /** A planned offer becomes a row for a waiting ticket of its store and product. */
  lemma PlannedRowsAreSound(db: Db, session: Session, items: seq<SnapshotItem>, caps: map<Id, int>, offerId: Id -> Id)
    requires PP.WellKeyed(SnapshotInput(db, session, items, caps, offerId))
    requires P.Plan(SnapshotInput(db, session, items, caps, offerId)).Success?
    ensures var plan := P.Plan(SnapshotInput(db, session, items, caps, offerId)).value;
      && PP.NoTicketTwice(plan)
      && forall x :: x in plan ==>
           && 0 <= x.offer.ticket < |db.tickets| && db.tickets[x.offer.ticket].status == Waiting
           && OfferSound(OfferedRow(session, x), db.tickets)
           && x.eligibleAtOffer == db.tickets[x.offer.ticket].remaining
  {
    hide P.Plan, LoadedOffers, WaitingTickets, AlreadyReserved, OfferableStock;
    var input := SnapshotInput(db, session, items, caps, offerId);
    PP.PlanOffersAreSound(input);
    WaitingTicketsAre(db, |db.tickets|);
  }
}
