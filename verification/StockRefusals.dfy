/** When a session's snapshot is refused, read off the tables. */
module StockRefusals {
  import opened Common
  import opened Quantities
  import opened StockTables
  import opened StockSnapshot
  import opened StockOffers
  import opened LiveOffers
  import P = PriorityPlanning
  import PP = PlanProperties

  /** The ticket accepted an offer of this business date, whether its goods were allocated yet or not. */
  ghost predicate AcceptedOn(db: Db, ticket: Id, businessDate: int) {
    exists o :: o in db.offers && o.ticket == ticket && o.businessDate == businessDate && o.status == Accepted
  }

  lemma {:induction false} LoadedAre(offers: seq<OfferRow>, lines: seq<LineRow>, businessDate: int)
    ensures forall x :: x in LoadedOffers(offers, lines, businessDate) ==>
      exists o :: o in offers && o.businessDate <= businessDate && x == Seen(o, lines)
  {
    hide IsAllocated, DomainStatus;
    if |offers| > 0 {
      var front, o := offers[..|offers| - 1], offers[|offers| - 1];
      LoadedAre(front, lines, businessDate);
      assert forall y :: y in front ==> y in offers;
    }
  }

  lemma AcceptedIsSeen(db: Db, session: Session, items: seq<SnapshotItem>, caps: map<Id, int>, offerId: Id -> Id, ticket: P.Ticket)
    requires Inv(db)
    ensures PP.AcceptedToday(SnapshotInput(db, session, items, caps, offerId), ticket) <==> AcceptedOn(db, ticket.id, session.businessDate)
  {
    hide Stocked, OffersSound, TicketsSound, ReservationsSound, ShipmentsSound, SnapshotsSound, ClaimsSound, IsAllocated, LoadedOffers,
         WaitingTickets, AlreadyReserved, OfferableStock;
    var input := SnapshotInput(db, session, items, caps, offerId);
    OffersAreReadable(db.offers, db.lines, db.tickets, db.clock, session.businessDate);
    LoadedAre(db.offers, db.lines, session.businessDate);
    LoadedMembers(db.offers, db.lines, session.businessDate);
    if AcceptedOn(db, ticket.id, session.businessDate) {
      var o :| o in db.offers && o.ticket == ticket.id && o.businessDate == session.businessDate && o.status == Accepted;
      assert Seen(o, db.lines) in input.offers;
    }
    if PP.AcceptedToday(input, ticket) {
      var x :| x in input.offers && x.ticket == ticket.id && x.businessDate == session.businessDate
               && (x.status == P.Consumed || x.status == P.Confirmed);
      var o :| o in db.offers && o.businessDate <= session.businessDate && x == Seen(o, db.lines);
      assert o.status == Accepted;
    }
  }

  /** A snapshot that is still in time is refused exactly when the stock reaches a waiting ticket that
  already accepted an offer of the session's business date. */
  lemma SnapshotIsRefusedWhen(db: Db, session: Session, items: seq<SnapshotItem>, caps: map<Id, int>, offerId: Id -> Id)
    requires Inv(db) && session.snapshotDueAt < session.finalDueAt
    requires forall t, t' :: offerId(t) == offerId(t') ==> t == t'
    ensures var input := SnapshotInput(db, session, items, caps, offerId);
      P.Plan(input).Failure? <==> exists p, i: nat :: PP.Reached(input, p, i) && AcceptedOn(db, P.Queue(input, p)[i].id, session.businessDate)
  {
    var input := SnapshotInput(db, session, items, caps, offerId);
    InputTickets(db, session, items, caps, offerId);
    PP.PlanOutcome(input);
    InputIs(db, session, items, caps, offerId);
    hide P.Plan, AcceptedOn, PP.AcceptedToday, Inv, SnapshotInput, PP.WellKeyed, P.Queue;
    forall p, i: nat | PP.Reached(input, p, i)
      ensures PP.AcceptedToday(input, P.Queue(input, p)[i]) <==> AcceptedOn(db, P.Queue(input, p)[i].id, session.businessDate)
    {
      AcceptedIsSeen(db, session, items, caps, offerId, P.Queue(input, p)[i]);
    }
  }

  // ---------------------------------------------------------------------------------------------
  // One input
  // ---------------------------------------------------------------------------------------------

  /** Store 7 waited for six bags of product 3 and got four by the offer of session 5; two are missing,
  and session 6 of the same date finds five bags. */
  const SECOND_OF_THE_DATE := Db(
    map[3 := Balance(5, 0)],
    [OfferRow(50, 5, 1, 7, 3, 0, 4, 6, 0, 4, 10, 30, Accepted)],
    [TicketRow(7, 4, 1, 0, 1, 0, Fulfilled), TicketRow(7, 3, 6, 2, 4, 5, Waiting)],
    [LineRow(5, 7, 3, ForOffer(1, 50), 4, 4, 0)],
    [Reservation(3, 7, 0, 4, Issued, None)],
    [],
    map[5 := [SnapshotItem(3, 4)]],
    map[],
    30)

  const SECOND := Session(6, 0, 40, 60, 0)

  lemma SecondIsStocked()
    ensures Stocked(SECOND_OF_THE_DATE.balances, SECOND_OF_THE_DATE.offers, SECOND_OF_THE_DATE.reservations, NOTHING)
  {
    var balances, offers, reservations := SECOND_OF_THE_DATE.balances, SECOND_OF_THE_DATE.offers, SECOND_OF_THE_DATE.reservations;
    forall p ensures Covered(balances, offers, reservations, NOTHING, p) {
      assert offers == [] + [offers[0]] && reservations == [] + [reservations[0]];
      TotalPush([], offers[0], HeldOf(p));
      TotalPush([], reservations[0], ReservedOf(p));
    }
  }

  lemma SecondHasRows()
    ensures OffersSound(SECOND_OF_THE_DATE.offers, SECOND_OF_THE_DATE.tickets, SECOND_OF_THE_DATE.snapshots)
    ensures TicketsSound(SECOND_OF_THE_DATE.tickets) && SnapshotsSound(SECOND_OF_THE_DATE.snapshots)
    ensures ReservationsSound(SECOND_OF_THE_DATE.reservations, SECOND_OF_THE_DATE.lines, SECOND_OF_THE_DATE.shipments)
    ensures ShipmentsSound(SECOND_OF_THE_DATE.reservations, SECOND_OF_THE_DATE.shipments)
  {
    assert SnapshotItem(3, 4) in [SnapshotItem(3, 4)];
    assert SECOND_OF_THE_DATE.reservations[0].line == 0;
  }

  lemma SecondHasClaims()
    ensures ClaimsSound(SECOND_OF_THE_DATE.offers, SECOND_OF_THE_DATE.lines, SECOND_OF_THE_DATE.tickets, SECOND_OF_THE_DATE.clock)
    ensures Standing(SECOND_OF_THE_DATE) && IsAllocated(SECOND_OF_THE_DATE.lines, 50)
  {
    assert SECOND_OF_THE_DATE.offers[0] in SECOND_OF_THE_DATE.offers && SECOND_OF_THE_DATE.lines[0] in SECOND_OF_THE_DATE.lines;
  }

  lemma SecondIsSound()
    ensures Inv(SECOND_OF_THE_DATE) && Standing(SECOND_OF_THE_DATE)
  {
    hide Stocked, OffersSound, TicketsSound, ReservationsSound, ShipmentsSound, SnapshotsSound, ClaimsSound, Standing;
    SecondIsStocked();
    SecondHasRows();
    SecondHasClaims();
  }

  lemma SecondOffers()
    ensures var db := SECOND_OF_THE_DATE;
      LoadedOffers(db.offers, db.lines, 0) == [P.Offer(50, 1, 7, 3, 0, 4, 4, 10, 30, P.Consumed)]
  {
    var db := SECOND_OF_THE_DATE;
    SecondHasClaims();
    hide IsAllocated;
    assert db.offers[..0] == [];
  }

  lemma SecondTickets()
    ensures var db := SECOND_OF_THE_DATE;
      WaitingTickets(db, |db.tickets|) == [P.Ticket(1, 7, 3, 6, 4, 5, P.Active)]
  {
    var db := SECOND_OF_THE_DATE;
    assert Owed(db.reservations, db.lines, 1) == 4 by {
      var f := (r: Reservation) =>
        if r.line < |db.lines| && db.lines[r.line].source.ForOffer? && db.lines[r.line].source.ticket == 1 then r.quantity else 0;
      assert db.reservations == [] + [db.reservations[0]];
      TotalPush([], db.reservations[0], f);
    }
    hide Owed;
    assert WaitingTickets(db, 0) == [] && WaitingTickets(db, 1) == [];
  }

  lemma SecondInput(offerId: Id -> Id)
    requires offerId(1) == 1001
    ensures PP.LaterSession(SnapshotInput(SECOND_OF_THE_DATE, SECOND, [SnapshotItem(3, 5)], map[], offerId),
                            P.Ticket(1, 7, 3, 6, 4, 5, P.Active), P.Offer(50, 1, 7, 3, 0, 4, 4, 10, 30, P.Consumed))
  {
    SecondOffers();
    SecondTickets();
    hide LoadedOffers, WaitingTickets, AlreadyReserved;
    assert OfferableStock(SECOND_OF_THE_DATE.balances, map[], [SnapshotItem(3, 5)]) == [P.ProductSnapshot(3, 5)];
  }

  /** The tables are sound, the session could still make offers, and its snapshot is refused. */
  lemma SecondSnapshotIsRefused(offerId: Id -> Id)
    requires offerId(1) == 1001
    ensures Inv(SECOND_OF_THE_DATE) && Scheduled(SECOND) && InTime(SECOND, 45) && SECOND_OF_THE_DATE.clock <= 45
    ensures P.Plan(SnapshotInput(SECOND_OF_THE_DATE, SECOND, [SnapshotItem(3, 5)], map[], offerId)).Failure?
  {
    SecondIsSound();
    hide P.Plan, Inv, SnapshotInput;
    SecondInput(offerId);
    PP.SecondOfferOfTheDayAborts(SnapshotInput(SECOND_OF_THE_DATE, SECOND, [SnapshotItem(3, 5)], map[], offerId),
                                 P.Ticket(1, 7, 3, 6, 4, 5, P.Active), P.Offer(50, 1, 7, 3, 0, 4, 4, 10, 30, P.Consumed));
  }
}
