/** How offers lapse, end waits, and are made: what each change keeps of the tables. */
module StockOffers {
  import opened Common
  import opened Quantities
  import opened Ordering
  import opened StockTables
  import opened StockSnapshot
  import P = PriorityPlanning
  import PP = PlanProperties

  // ---------------------------------------------------------------------------------------------
  // Expiry
  // ---------------------------------------------------------------------------------------------

  /** Unanswered offers of the session at its allocation time, and older ones left behind. */
  predicate Expirable(o: OfferRow, session: Session) {
    o.status == Offered && o.deadline <= session.finalDueAt && (o.session == session.id || o.deadline < session.finalDueAt)
  }

  function Lapsed(o: OfferRow, session: Session): OfferRow {
    if Expirable(o, session) then o.(status := Expired, accepted := 0, held := 0) else o
  }

  lemma WhenOffersLapse(session: Session)
    ensures forall o ::
      Lapsed(o, session) ==
      if o.status == Offered && (o.deadline < session.finalDueAt || (o.deadline == session.finalDueAt && o.session == session.id))
      then o.(status := Expired, accepted := 0, held := 0) else o
  {
  }

  function LapsedOffers(offers: seq<OfferRow>, session: Session): (r: seq<OfferRow>)
    ensures |r| == |offers|
  {
    seq(|offers|, i requires 0 <= i < |offers| => Lapsed(offers[i], session))
  }

  /** The offers that lapse at a session's allocation time. */
  function Expiring(offers: seq<OfferRow>, session: Session): seq<OfferRow> {
    Filter(offers, (o: OfferRow) => Expirable(o, session))
  }

  /** The balances after these offers gave back what they held. */
  function Released(balances: Balances, lapsed: seq<OfferRow>): Balances {
    if |lapsed| == 0 then balances
    else
      var o, before := lapsed[|lapsed| - 1], Released(balances, lapsed[..|lapsed| - 1]);
      var b := BalanceOf(before, o.product);
      if o.held > 0 then before[o.product := Balance(b.onHand, Monus(b.reserved, o.held))] else before
  }

  /** Ticket `t` was offered everything it waits for by one of these offers, and has no live one. */
  predicate TimesOut(t: nat, tickets: seq<TicketRow>, lapsed: seq<OfferRow>, offers: seq<OfferRow>, lines: seq<LineRow>)
    requires t < |tickets|
  {
    exists o :: o in lapsed && o.ticket == t && EndsWait(o, tickets[t], offers, lines)
  }

  function TimedOut(tickets: seq<TicketRow>, lapsed: seq<OfferRow>, offers: seq<OfferRow>, lines: seq<LineRow>): (r: seq<TicketRow>)
    ensures |r| == |tickets|
  {
    seq(|tickets|, t requires 0 <= t < |tickets| =>
      if TimesOut(t, tickets, lapsed, offers, lines) then tickets[t].(status := Cancelled) else tickets[t])
  }

  /** One more lapsed offer cancels its ticket unless an earlier one did, or it stands for less. */
  lemma OneMoreTimedOut(tickets: seq<TicketRow>, lapsed: seq<OfferRow>, o: OfferRow, offers: seq<OfferRow>, lines: seq<LineRow>)
    requires o.ticket < |tickets|
    ensures var before := TimedOut(tickets, lapsed, offers, lines);
      TimedOut(tickets, lapsed + [o], offers, lines)
      == if EndsWait(o, before[o.ticket], offers, lines) then before[o.ticket := before[o.ticket].(status := Cancelled)] else before
  {
    hide Live, Full;
    forall t | 0 <= t < |tickets|
      ensures TimesOut(t, tickets, lapsed + [o], offers, lines)
           <==> TimesOut(t, tickets, lapsed, offers, lines) || (t == o.ticket && EndsWait(o, tickets[t], offers, lines))
    {
    }
  }

  // ---------------------------------------------------------------------------------------------
  // What small changes keep
  // ---------------------------------------------------------------------------------------------

  lemma StockChanged(balances: Balances, offers: seq<OfferRow>, reservations: seq<Reservation>, kept: map<Id, nat>, product: Id, d: int)
    requires Stocked(balances, offers, reservations, kept) && Allowed(balances, product, d, 0)
    ensures Stocked(Moved(balances, product, d, 0), offers, reservations, kept)
  {
    hide ActivelyReserved, Held;
    var balances' := Moved(balances, product, d, 0);
    forall p ensures Covered(balances', offers, reservations, kept, p) {
      assert Covered(balances, offers, reservations, kept, p);
    }
  }

  /** An offer that keeps its keys and shrinks its hold stays sound. */
  lemma OfferReplaced(offers: seq<OfferRow>, tickets: seq<TicketRow>, snapshots: map<Id, seq<SnapshotItem>>, i: nat, row: OfferRow)
    requires OffersSound(offers, tickets, snapshots) && i < |offers| && OfferSound(row, tickets)
    requires row.session == offers[i].session && row.ticket == offers[i].ticket && row.product == offers[i].product
    ensures OffersSound(offers[i := row], tickets, snapshots)
  {
    var offers' := offers[i := row];
    assert offers[i] in offers;
    forall o | o in offers' ensures OfferSound(o, tickets) && Listed(o, snapshots) {
      if o != row { assert o in offers; }
    }
  }

  /** Offers do not mind what tickets wait for. */
  lemma TicketsReplaced(offers: seq<OfferRow>, tickets: seq<TicketRow>, after: seq<TicketRow>, snapshots: map<Id, seq<SnapshotItem>>)
    requires OffersSound(offers, tickets, snapshots) && |tickets| <= |after|
    requires forall t :: 0 <= t < |tickets| ==> after[t].store == tickets[t].store && after[t].product == tickets[t].product
    ensures OffersSound(offers, after, snapshots)
  {
    forall o | o in offers ensures OfferSound(o, after) && Listed(o, snapshots) {
      assert OfferSound(o, tickets);
    }
  }

  /** A ticket may stop waiting. */
  lemma TicketEnded(tickets: seq<TicketRow>, t: nat)
    requires TicketsSound(tickets) && t < |tickets|
    ensures TicketsSound(tickets[t := tickets[t].(status := Cancelled)])
  {
    var after := tickets[t := tickets[t].(status := Cancelled)];
    assert tickets[t] in tickets;
    forall x | x in after ensures TicketSound(x) {
      if x != after[t] { assert x in tickets; }
    }
  }

  lemma OfferedRowsAreSound(s: Db, session: Session, items: seq<SnapshotItem>, rows: seq<OfferRow>)
    requires OffersSound(s.offers, s.tickets, s.snapshots) && session.id !in s.snapshots
    requires forall o :: o in rows ==> OfferSound(o, s.tickets) && o.session == session.id && HasProduct(items, o.product)
    requires forall i, j :: 0 <= i < j < |rows| ==> rows[i].ticket != rows[j].ticket
    ensures OffersSound(s.offers + rows, s.tickets, s.snapshots[session.id := items])
  {
    var offers := s.offers + rows;
    forall i, j | 0 <= i < j < |offers|
      ensures offers[i].session != offers[j].session || offers[i].ticket != offers[j].ticket
    {
      if i < |s.offers| { assert s.offers[i] in s.offers; }
      if j >= |s.offers| { assert rows[j - |s.offers|] in rows; }
    }
  }

  // ---------------------------------------------------------------------------------------------
  // The snapshot's offers
  // ---------------------------------------------------------------------------------------------

  /** Offers are made only while there is time left to answer them. */
  predicate InTime(session: Session, processedAt: Instant) {
    session.snapshotDueAt < session.finalDueAt && processedAt < session.finalDueAt
  }

  lemma IsCovered(db: Db, p: Id)
    requires Stocked(db.balances, db.offers, db.reservations, NOTHING)
    ensures BalanceOf(db.balances, p).reserved <= BalanceOf(db.balances, p).onHand
  {
    assert Covered(db.balances, db.offers, db.reservations, NOTHING, p);
  }

  lemma InputIs(db: Db, session: Session, items: seq<SnapshotItem>, caps: map<Id, int>, offerId: Id -> Id)
    ensures SnapshotInput(db, session, items, caps, offerId)
         == P.PlanInput(session.businessDate, session.snapshotDueAt, session.finalDueAt,
                        OfferableStock(db.balances, caps, items), WaitingTickets(db, |db.tickets|),
                        LoadedOffers(db.offers, db.lines, session.businessDate),
                        AlreadyReserved(db.offers, db.lines, session.businessDate), offerId)
  {
  }

  lemma InputTickets(db: Db, session: Session, items: seq<SnapshotItem>, caps: map<Id, int>, offerId: Id -> Id)
    requires forall t, t' :: offerId(t) == offerId(t') ==> t == t'
    ensures PP.WellKeyed(SnapshotInput(db, session, items, caps, offerId))
  {
    WaitingTicketsAre(db, |db.tickets|);
  }

  lemma NothingPlanned()
    ensures forall p :: PP.PlannedFor([], p) == 0
  {
  }

  lemma PlannedNext(plan: seq<P.PlannedOffer>, i: nat)
    requires i < |plan|
    ensures forall p :: PP.PlannedFor(plan[..i + 1], p)
                     == PP.PlannedFor(plan[..i], p) + if plan[i].offer.product == p then plan[i].offer.offered else 0
    ensures forall p :: PP.PlannedFor(plan[..i + 1], p) <= PP.PlannedFor(plan, p)
  {
    assert plan[..i + 1][..i] == plan[..i];
    forall p ensures PP.PlannedFor(plan[..i + 1], p) <= PP.PlannedFor(plan, p) {
      PlannedSoFar(plan, i + 1, p);
    }
  }

  lemma NoOffersAreSound(db: Db, session: Session, items: seq<SnapshotItem>)
    requires OffersSound(db.offers, db.tickets, db.snapshots) && session.id !in db.snapshots
    ensures OffersSound(db.offers, db.tickets, db.snapshots[session.id := items])
  {
  }

  lemma PlannedRowsFit(db: Db, session: Session, items: seq<SnapshotItem>, plan: seq<P.PlannedOffer>)
    requires OffersSound(db.offers, db.tickets, db.snapshots) && session.id !in db.snapshots
    requires PP.NoTicketTwice(plan)
    requires forall x :: x in plan ==>
      0 <= x.offer.ticket && OfferSound(OfferedRow(session, x), db.tickets) && HasProduct(items, x.offer.product)
    ensures OffersSound(db.offers + OfferedRows(session, plan), db.tickets, db.snapshots[session.id := items])
  {
    var rows := OfferedRows(session, plan);
    forall o | o in rows ensures OfferSound(o, db.tickets) && o.session == session.id && HasProduct(items, o.product) {
      var i :| 0 <= i < |rows| && rows[i] == o;
      assert plan[i] in plan;
    }
    OfferedRowsAreSound(db, session, items, rows);
  }

  lemma NoneExpiring(balances: Balances, session: Session)
    ensures Expiring([], session) == [] && Released(balances, []) == balances
  {
  }

  lemma NextExpiring(balances: Balances, offers: seq<OfferRow>, i: nat, session: Session)
    requires i < |offers|
    ensures var lapsed, o := Expiring(offers[..i], session), offers[i];
      && Expiring(offers[..i + 1], session) == (if Expirable(o, session) then lapsed + [o] else lapsed)
      && var b := BalanceOf(Released(balances, lapsed), o.product);
         Released(balances, lapsed + [o])
         == if o.held > 0 then Released(balances, lapsed)[o.product := Balance(b.onHand, Monus(b.reserved, o.held))]
            else Released(balances, lapsed)
  {
    FilterTake(offers, i, (o: OfferRow) => Expirable(o, session));
    var lapsed := Expiring(offers[..i], session);
    assert (lapsed + [offers[i]])[..|lapsed|] == lapsed;
  }
}
