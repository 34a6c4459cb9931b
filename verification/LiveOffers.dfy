/** The claims that offers have on tickets, and why every job and every answer keeps them sound.

A snapshot looks at offers up to its own business date.  It makes offers only before its session's
allocation time, which lies on that date, and every offer was made on its business date; so on a
clock that does not go back it sees every live offer. */
module LiveOffers {
  import opened Common
  import opened Quantities
  import opened Ordering
  import opened StockTables
  import opened StockSnapshot
  import opened StockRun
  import opened StockOffers
  import opened StockWriting
  import A = Allocation
  import P = PriorityPlanning
  import PP = PlanProperties

  // ---------------------------------------------------------------------------------------------
  // What the snapshot sees
  // ---------------------------------------------------------------------------------------------

  /** Only an accepted offer was ever allocated: the job can read every offer. */
  lemma OffersAreReadable(offers: seq<OfferRow>, lines: seq<LineRow>, tickets: seq<TicketRow>, clock: Instant, businessDate: int)
    requires ClaimsSound(offers, lines, tickets, clock)
    ensures Readable(offers, lines, businessDate)
  {
    forall o | o in offers && IsAllocated(lines, o.id) ensures o.status == Accepted {
      var l :| l in lines && l.source.ForOffer? && l.source.offer == o.id;
      assert IsKnown(offers, l.source.offer, l.source.ticket);
      var x :| x in offers && x.id == o.id && x.status == Accepted;
    }
  }

  lemma LaterDate(a: Instant, b: Instant)
    requires a <= b
    ensures BusinessDate(a) <= BusinessDate(b)
  {
  }

  /** While a session can still make offers, no offer is of a later date. */
  lemma NoLaterOffers(offers: seq<OfferRow>, clock: Instant, session: Session, processedAt: Instant)
    requires Dated(offers, clock) && clock <= processedAt && Scheduled(session) && InTime(session, processedAt)
    ensures forall o :: o in offers ==> o.businessDate <= session.businessDate
  {
    hide BusinessDate;
    forall o | o in offers ensures o.businessDate <= session.businessDate {
      LaterDate(o.createdAt, session.finalDueAt);
    }
  }

  // ---------------------------------------------------------------------------------------------
  // Answers and lapses
  // ---------------------------------------------------------------------------------------------

  /** The same claims, or fewer: offers keep what identifies them, and none comes to life. */
  ghost predicate Fewer(before: seq<OfferRow>, after: seq<OfferRow>) {
    |after| == |before| && forall i :: 0 <= i < |after| ==> FewerRow(before[i], after[i])
  }

  ghost predicate FewerRow(a: OfferRow, b: OfferRow) {
    && b.id == a.id && b.ticket == a.ticket && b.createdAt == a.createdAt && b.businessDate == a.businessDate
    && (b.status == a.status || (a.status == Offered && b.status != Offered))
    && (b.status == a.status == Accepted ==> b.accepted == a.accepted)
  }

  lemma FewerKnown(before: seq<OfferRow>, after: seq<OfferRow>, lines: seq<LineRow>)
    requires Fewer(before, after) && LinesNamed(lines, before)
    ensures LinesNamed(lines, after)
  {
    forall l | l in lines && l.source.ForOffer? ensures IsKnown(after, l.source.offer, l.source.ticket) {
      assert IsKnown(before, l.source.offer, l.source.ticket);
      var o :| o in before && o.id == l.source.offer && o.ticket == l.source.ticket && o.status == Accepted;
      var i :| 0 <= i < |before| && before[i] == o;
      assert after[i] in after && FewerRow(before[i], after[i]);
    }
  }

  lemma FewerClaims(before: seq<OfferRow>, after: seq<OfferRow>, lines: seq<LineRow>, tickets: seq<TicketRow>, clock: Instant)
    requires ClaimsSound(before, lines, tickets, clock) && Fewer(before, after)
    ensures ClaimsSound(after, lines, tickets, clock)
  {
    hide IsAllocated, LinesNamed, LinesPlaced, BusinessDate;
    FewerKnown(before, after, lines);
    hide Fewer;
    assert forall i :: 0 <= i < |after| ==> FewerRow(before[i], after[i]) by { FewerAt(before, after); }
    forall o | o in after ensures o.createdAt <= clock && BusinessDate(o.createdAt) == o.businessDate {
      var i :| 0 <= i < |after| && after[i] == o;
      assert before[i] in before;
    }
    forall i, j | 0 <= i < j < |after| && Live(after[i], lines) && Live(after[j], lines) ensures after[i].ticket != after[j].ticket {
      assert Live(before[i], lines);
      assert Live(before[j], lines);
    }
  }

  lemma FewerStand(before: seq<OfferRow>, after: seq<OfferRow>, lines: seq<LineRow>, tickets: seq<TicketRow>)
    requires AcceptedStand(before, lines, tickets) && Fewer(before, after)
    requires forall i :: 0 <= i < |after| && after[i].status == Accepted && before[i].status == Offered ==> Stands(after[i], tickets)
    ensures AcceptedStand(after, lines, tickets)
  {
    hide IsAllocated;
    FewerAt(before, after);
    forall o | o in after && o.status == Accepted && !IsAllocated(lines, o.id) ensures Stands(o, tickets) {
      var i :| 0 <= i < |after| && after[i] == o;
      assert before[i] in before && FewerRow(before[i], after[i]);
    }
  }

  lemma FewerAt(before: seq<OfferRow>, after: seq<OfferRow>)
    requires Fewer(before, after)
    ensures |after| == |before| && forall i :: 0 <= i < |after| ==> FewerRow(before[i], after[i])
  {
  }

  /** An answer brings no offer to life, and an acceptance is of an open wait. */
  lemma AnswerKeepsClaims(offers: seq<OfferRow>, lines: seq<LineRow>, tickets: seq<TicketRow>, clock: Instant,
                          i: nat, action: Action, now: Instant)
    requires ClaimsSound(offers, lines, tickets, clock) && i < |offers| && offers[i].ticket < |tickets|
    requires PlanResponse(offers[i], tickets[offers[i].ticket], action, now).Responded?
    ensures var after := offers[i := Answered(offers[i], PlanResponse(offers[i], tickets[offers[i].ticket], action, now))];
      && ClaimsSound(after, lines, tickets, clock)
      && (AcceptedStand(offers, lines, tickets) ==> AcceptedStand(after, lines, tickets))
  {
    hide ClaimsSound, AcceptedStand;
    var after := offers[i := Answered(offers[i], PlanResponse(offers[i], tickets[offers[i].ticket], action, now))];
    FewerClaims(offers, after, lines, tickets, clock);
    if AcceptedStand(offers, lines, tickets) { FewerStand(offers, after, lines, tickets); }
  }

  lemma LapsedKeepsClaims(offers: seq<OfferRow>, lines: seq<LineRow>, tickets: seq<TicketRow>, clock: Instant, session: Session)
    requires ClaimsSound(offers, lines, tickets, clock)
    ensures ClaimsSound(LapsedOffers(offers, session), lines, tickets, clock)
    ensures AcceptedStand(offers, lines, tickets) ==> AcceptedStand(LapsedOffers(offers, session), lines, tickets)
  {
    hide ClaimsSound, AcceptedStand;
    FewerClaims(offers, LapsedOffers(offers, session), lines, tickets, clock);
    if AcceptedStand(offers, lines, tickets) { FewerStand(offers, LapsedOffers(offers, session), lines, tickets); }
  }

  lemma ConvertedKeepsClaims(offers: seq<OfferRow>, lines: seq<LineRow>, tickets: seq<TicketRow>, clock: Instant, session: Id)
    requires ClaimsSound(offers, lines, tickets, clock)
    ensures ClaimsSound(ConvertedOffers(offers, lines, session), lines, tickets, clock)
    ensures AcceptedStand(offers, lines, tickets) ==> AcceptedStand(ConvertedOffers(offers, lines, session), lines, tickets)
  {
    hide ClaimsSound, AcceptedStand, Owned;
    FewerClaims(offers, ConvertedOffers(offers, lines, session), lines, tickets, clock);
    if AcceptedStand(offers, lines, tickets) { FewerStand(offers, ConvertedOffers(offers, lines, session), lines, tickets); }
  }

  /** Claims do not mind what tickets wait for. */
  lemma TicketsKeepClaims(offers: seq<OfferRow>, lines: seq<LineRow>, tickets: seq<TicketRow>, after: seq<TicketRow>, clock: Instant)
    requires ClaimsSound(offers, lines, tickets, clock) && |tickets| <= |after|
    requires forall t :: 0 <= t < |tickets| ==> after[t].store == tickets[t].store && after[t].product == tickets[t].product
    ensures ClaimsSound(offers, lines, after, clock)
  {
    hide IsAllocated, OneLive, LinesNamed, DistinctOffers, Dated;
    forall l | l in lines && l.source.ForOffer? ensures IsPlaced(l, after) {
      assert IsPlaced(l, tickets);
    }
  }

  /** An accepted offer loses its wait only when the ticket of a live offer changes. */
  lemma TicketsKeepStanding(offers: seq<OfferRow>, lines: seq<LineRow>, tickets: seq<TicketRow>, after: seq<TicketRow>)
    requires AcceptedStand(offers, lines, tickets) && |tickets| <= |after|
    requires forall t: nat :: t < |tickets| && after[t] != tickets[t] ==> forall o :: o in offers && o.ticket == t ==> !Live(o, lines)
    ensures AcceptedStand(offers, lines, after)
  {
    hide IsAllocated;
    forall o | o in offers && o.status == Accepted && !IsAllocated(lines, o.id) ensures Stands(o, after) {
      assert Stands(o, tickets) && Live(o, lines);
    }
  }

  /** Only waits without a live offer are ended by a full one. */
  lemma CancelKeepsClaims(o: OfferRow, offers: seq<OfferRow>, lines: seq<LineRow>, tickets: seq<TicketRow>, clock: Instant)
    requires ClaimsSound(offers, lines, tickets, clock) && o.ticket < |tickets| && EndsWait(o, tickets[o.ticket], offers, lines)
    ensures var after := tickets[o.ticket := tickets[o.ticket].(status := Cancelled)];
      && ClaimsSound(offers, lines, after, clock)
      && (AcceptedStand(offers, lines, tickets) ==> AcceptedStand(offers, lines, after))
  {
    hide ClaimsSound, AcceptedStand, Live, Full;
    var after := tickets[o.ticket := tickets[o.ticket].(status := Cancelled)];
    TicketsKeepClaims(offers, lines, tickets, after, clock);
    if AcceptedStand(offers, lines, tickets) { TicketsKeepStanding(offers, lines, tickets, after); }
  }

  lemma TimeoutKeepsClaims(offers: seq<OfferRow>, lines: seq<LineRow>, tickets: seq<TicketRow>, lapsed: seq<OfferRow>, clock: Instant)
    requires ClaimsSound(offers, lines, tickets, clock)
    ensures ClaimsSound(offers, lines, TimedOut(tickets, lapsed, offers, lines), clock)
    ensures AcceptedStand(offers, lines, tickets) ==> AcceptedStand(offers, lines, TimedOut(tickets, lapsed, offers, lines))
  {
    hide ClaimsSound, AcceptedStand, Live, Full;
    TicketsKeepClaims(offers, lines, tickets, TimedOut(tickets, lapsed, offers, lines), clock);
    if AcceptedStand(offers, lines, tickets) { TicketsKeepStanding(offers, lines, tickets, TimedOut(tickets, lapsed, offers, lines)); }
  }

  // ---------------------------------------------------------------------------------------------
  // A snapshot
  // ---------------------------------------------------------------------------------------------

  /** Ids of offers are derived from session and ticket: a session that made no offers yet makes new ones. */
  ghost predicate FreshIds(offerId: Id -> Id, offers: seq<OfferRow>) {
    && (forall t, t' :: offerId(t) == offerId(t') ==> t == t')
    && (forall t, o :: o in offers ==> offerId(t) != o.id)
  }

  lemma FreshAreDistinct(offerId: Id -> Id, offers: seq<OfferRow>)
    requires FreshIds(offerId, offers)
    ensures forall t, t' :: offerId(t) == offerId(t') ==> t == t'
  {
  }

  lemma {:induction false} LoadedMembers(offers: seq<OfferRow>, lines: seq<LineRow>, businessDate: int)
    ensures forall o :: o in offers && o.businessDate <= businessDate ==> Seen(o, lines) in LoadedOffers(offers, lines, businessDate)
  {
    hide IsAllocated;
    if |offers| > 0 {
      LoadedMembers(offers[..|offers| - 1], lines, businessDate);
    }
  }

  /** A planned ticket has no live offer among those the planner sees. */
  lemma PlannedTicketIsFree(db: Db, session: Session, items: seq<SnapshotItem>, caps: map<Id, int>, offerId: Id -> Id,
                            x: P.PlannedOffer, o: OfferRow)
    requires OffersSound(db.offers, db.tickets, db.snapshots)
    requires PP.WellKeyed(SnapshotInput(db, session, items, caps, offerId))
    requires P.Plan(SnapshotInput(db, session, items, caps, offerId)).Success?
    requires x in P.Plan(SnapshotInput(db, session, items, caps, offerId)).value
    requires Readable(db.offers, db.lines, session.businessDate)
    requires o in db.offers && o.ticket == x.offer.ticket && o.businessDate <= session.businessDate
    ensures !Live(o, db.lines)
  {
    hide P.Plan, WaitingTickets, AlreadyReserved, OfferableStock, LoadedOffers, IsAllocated;
    var input := SnapshotInput(db, session, items, caps, offerId);
    PP.PlanOffersAreSound(input);
    LoadedMembers(db.offers, db.lines, session.businessDate);
    assert OfferSound(o, db.tickets);
    assert Seen(o, db.lines) in input.offers;
  }

  /** New rows for tickets without a live offer, with new ids, made now. */
  lemma AddedKeepsClaims(offers: seq<OfferRow>, rows: seq<OfferRow>, lines: seq<LineRow>, tickets: seq<TicketRow>,
                         clock: Instant, now: Instant)
    requires ClaimsSound(offers, lines, tickets, clock) && clock <= now
    requires forall r :: r in rows ==> r.status == Offered && r.createdAt <= now && BusinessDate(r.createdAt) == r.businessDate
    requires forall i, j :: 0 <= i < j < |rows| ==> rows[i].ticket != rows[j].ticket && rows[i].id != rows[j].id
    requires forall r, o :: r in rows && o in offers ==> r.id != o.id && (Live(o, lines) ==> o.ticket != r.ticket)
    ensures ClaimsSound(offers + rows, lines, tickets, now)
    ensures AcceptedStand(offers, lines, tickets) ==> AcceptedStand(offers + rows, lines, tickets)
  {
    hide IsAllocated, BusinessDate, LinesPlaced;
    var all := offers + rows;
    forall i, j | 0 <= i < j < |all|
      ensures all[i].id != all[j].id
      ensures Live(all[i], lines) && Live(all[j], lines) ==> all[i].ticket != all[j].ticket
    {
      if j >= |offers| {
        assert all[j] == rows[j - |offers|] && all[j] in rows;
        if i < |offers| { assert all[i] in offers; } else { assert all[i] == rows[i - |offers|]; }
      }
    }
    forall l | l in lines && l.source.ForOffer? ensures IsKnown(all, l.source.offer, l.source.ticket) {
      assert IsKnown(offers, l.source.offer, l.source.ticket);
      var o :| o in offers && o.id == l.source.offer && o.ticket == l.source.ticket && o.status == Accepted;
      assert o in all;
    }
  }

  lemma PlannedProduct(db: Db, session: Session, items: seq<SnapshotItem>, caps: map<Id, int>, offerId: Id -> Id, x: P.PlannedOffer)
    requires PP.WellKeyed(SnapshotInput(db, session, items, caps, offerId))
    requires P.Plan(SnapshotInput(db, session, items, caps, offerId)).Success?
    requires x in P.Plan(SnapshotInput(db, session, items, caps, offerId)).value
    ensures HasProduct(items, x.offer.product)
  {
    hide P.Plan, P.Queue, P.Claims, PP.WellKeyed, LoadedOffers, WaitingTickets, AlreadyReserved, Sum;
    var input := SnapshotInput(db, session, items, caps, offerId);
    var plan, p := P.Plan(input).value, x.offer.product;
    PP.PlanOffersAreSound(input);
    PP.PlanUsesTheStock(input, p);
    var f := (y: P.PlannedOffer) => if y.offer.product == p then y.offer.offered else 0;
    TotalZero(plan, f);
    var k :| 0 <= k < |plan| && plan[k] == x;
    assert f(plan[k]) > 0;
    hide PP.PlannedFor, Total;
    if !HasProduct(items, p) {
      forall s | s in input.snapshots ensures s.product != p {
        var i :| 0 <= i < |input.snapshots| && input.snapshots[i] == s;
        assert items[i] in items;
      }
      StockWithin(input, input.snapshots, p, 0);
    }
  }

  /** A snapshot offers only tickets without a live offer. */
  lemma SnapshotKeepsClaims(db: Db, session: Session, items: seq<SnapshotItem>, caps: map<Id, int>, offerId: Id -> Id, processedAt: Instant)
    requires Inv(db) && FreshIds(offerId, db.offers) && Scheduled(session) && InTime(session, processedAt)
    requires db.clock <= processedAt && session.snapshotDueAt <= processedAt
    requires PP.WellKeyed(SnapshotInput(db, session, items, caps, offerId))
    requires P.Plan(SnapshotInput(db, session, items, caps, offerId)).Success?
    ensures var plan := P.Plan(SnapshotInput(db, session, items, caps, offerId)).value;
      && (forall x :: x in plan ==> x.offer.ticket >= 0 && HasProduct(items, x.offer.product))
      && ClaimsSound(db.offers + OfferedRows(session, plan), db.lines, db.tickets, processedAt)
      && (Standing(db) ==> AcceptedStand(db.offers + OfferedRows(session, plan), db.lines, db.tickets))
  {
    hide P.Plan, PP.WellKeyed, SnapshotInput, IsAllocated, BusinessDate, Stocked, OffersSound, TicketsSound, ReservationsSound, ShipmentsSound,
         SnapshotsSound, Readable, OfferSound;
    var plan := P.Plan(SnapshotInput(db, session, items, caps, offerId)).value;
    PlannedRowsAreSound(db, session, items, caps, offerId);
    OffersAreReadable(db.offers, db.lines, db.tickets, db.clock, session.businessDate);
    NoLaterOffers(db.offers, db.clock, session, processedAt);
    PlanCarriesSession(db, session, items, caps, offerId);
    var rows := OfferedRows(session, plan);
    forall x | x in plan
      ensures HasProduct(items, x.offer.product)
      ensures forall o :: o in db.offers && Live(o, db.lines) ==> o.ticket != x.offer.ticket
    {
      PlannedProduct(db, session, items, caps, offerId, x);
      forall o | o in db.offers && Live(o, db.lines) ensures o.ticket != x.offer.ticket {
        if o.ticket == x.offer.ticket { PlannedTicketIsFree(db, session, items, caps, offerId, x, o); }
      }
    }
    hide Live, ClaimsSound, HasProduct, AcceptedStand;
    forall i | 0 <= i < |rows| ensures rows[i] == OfferedRow(session, plan[i]) && plan[i] in plan {
    }
    forall r | r in rows
      ensures r.status == Offered && r.createdAt <= processedAt && BusinessDate(r.createdAt) == r.businessDate
      ensures forall o :: o in db.offers ==> r.id != o.id && (Live(o, db.lines) ==> o.ticket != r.ticket)
    {
      var i :| 0 <= i < |rows| && rows[i] == r;
      assert plan[i] in plan;
    }
    AddedKeepsClaims(db.offers, rows, db.lines, db.tickets, db.clock, processedAt);
  }

  lemma PlanCarriesSession(db: Db, session: Session, items: seq<SnapshotItem>, caps: map<Id, int>, offerId: Id -> Id)
    requires PP.WellKeyed(SnapshotInput(db, session, items, caps, offerId))
    requires P.Plan(SnapshotInput(db, session, items, caps, offerId)).Success?
    ensures forall x :: x in P.Plan(SnapshotInput(db, session, items, caps, offerId)).value ==>
      && x.offer.createdAt == session.snapshotDueAt && x.offer.businessDate == session.businessDate
      && x.offer.id == offerId(x.offer.ticket)
  {
    hide P.Plan, LoadedOffers, WaitingTickets, AlreadyReserved, OfferableStock;
    PP.PlanOffersAreSound(SnapshotInput(db, session, items, caps, offerId));
  }

  lemma NothingAddedKeepsClaims(offers: seq<OfferRow>, lines: seq<LineRow>, tickets: seq<TicketRow>, clock: Instant, now: Instant)
    requires ClaimsSound(offers, lines, tickets, clock) && clock <= now
    ensures ClaimsSound(offers, lines, tickets, now)
  {
    hide BusinessDate;
  }

  // ---------------------------------------------------------------------------------------------
  // A final run
  // ---------------------------------------------------------------------------------------------

  /** The offers a run allocates are accepted rows of the table, not allocated before. */
  ghost predicate AreRows(accepted: seq<OfferRow>, offers: seq<OfferRow>, lines: seq<LineRow>) {
    forall a :: a in accepted ==> IsOpenRow(a, offers, lines)
  }

  ghost predicate IsOpenRow(a: OfferRow, offers: seq<OfferRow>, lines: seq<LineRow>) {
    !IsAllocated(lines, a.id) && IsKnown(offers, a.id, a.ticket)
  }

  lemma AcceptedAreRows(offers: seq<OfferRow>, lines: seq<LineRow>, session: Id)
    ensures AreRows(AcceptedOffers(offers, lines, session), ConvertedOffers(offers, lines, session), lines)
  {
    hide IsAllocated;
    var after := ConvertedOffers(offers, lines, session);
    forall a | a in AcceptedOffers(offers, lines, session) ensures IsOpenRow(a, after, lines) {
      FilterCounts(offers, (o: OfferRow) => Owned(o, lines, session), a);
      var i :| 0 <= i < |offers| && offers[i] == a;
      assert after[i] in after && after[i].id == a.id && after[i].ticket == a.ticket && after[i].status == Accepted;
    }
  }

  lemma StillAllocated(before: seq<LineRow>, after: seq<LineRow>, offer: Id)
    requires before <= after && IsAllocated(before, offer)
    ensures IsAllocated(after, offer)
  {
    var l :| l in before && l.source.ForOffer? && l.source.offer == offer;
    assert l in after;
  }

  lemma NamedIsAllocated(lines: seq<LineRow>, l: LineRow, offer: Id)
    requires l in lines && l.source.ForOffer? && l.source.offer == offer
    ensures IsAllocated(lines, offer)
  {
  }

  /** An offer that a run leaves unallocated is for a ticket that the run does not serve. */
  lemma UnallocatedIsUnserved(offers: seq<OfferRow>, before: seq<LineRow>, after: seq<LineRow>, run: Id, accepted: seq<OfferRow>,
                              merged: seq<MergedDemand>, planned: seq<PlannedItem>, p: PlannedItem, x: A.Remainder, o: OfferRow)
    requires OneLive(offers, before) && AreRows(accepted, offers, before)
    requires after == before + RunLines(run, planned, accepted, merged) && p in planned && x in p.out.remainders
    requires WaitsHaveOffers(accepted, p.out.remainders)
    requires o in offers && o.status == Accepted && !IsAllocated(before, o.id) && !IsAllocated(after, o.id)
    ensures x.demand.source != A.ConfirmedWait(o.ticket)
  {
    hide IsAllocated, RunLines;
    if x.demand.source == A.ConfirmedWait(o.ticket) {
      var a := OfferFor(accepted, o.ticket).value;
      var l := WaitLine(run, p.product, x, a);
      assert IsWaitLine(l, run, p.product, x, accepted);
      RunLinesAre(run, planned, accepted, merged);
      assert IsOpenRow(a, offers, before);
      var row :| row in offers && row.id == a.id && row.ticket == a.ticket && row.status == Accepted;
      var i :| 0 <= i < |offers| && offers[i] == row;
      var j :| 0 <= j < |offers| && offers[j] == o;
      assert Live(offers[i], before) && Live(offers[j], before);
      assert i == j;
      NamedIsAllocated(after, l, o.id);
    }
  }

  lemma UnservedTicket(planned: seq<PlannedItem>, t: Id)
    requires forall p, x :: p in planned && x in p.out.remainders ==> x.demand.source != A.ConfirmedWait(t)
    ensures PlanGrant(planned, t) == 0
  {
    forall k | 0 <= k < |planned| ensures TicketGrant(planned[k].out.remainders, t) == 0 {
      TotalZero(planned[k].out.remainders, GrantOf(t));
      assert planned[k] in planned;
    }
    TotalZero(planned, (p: PlannedItem) => TicketGrant(p.out.remainders, t));
  }

  /** The lines of a run name the offers it allocates, and are of their tickets' stores and products. */
  lemma RunLinesFit(offers: seq<OfferRow>, before: seq<LineRow>, after: seq<LineRow>, run: Id, accepted: seq<OfferRow>,
                    planned: seq<PlannedItem>, merged: seq<MergedDemand>, tickets: seq<TicketRow>)
    requires LinesNamed(before, offers) && LinesPlaced(before, tickets) && AreRows(accepted, offers, before)
    requires after == before + RunLines(run, planned, accepted, merged) && AllPlanned(planned, tickets, accepted, merged)
    ensures LinesNamed(after, offers) && LinesPlaced(after, tickets)
  {
    hide IsAllocated, RunLines, IsKnown, A.Valid, A.IsOutcome, WaitsHaveOffers, RequestsHaveMerged;
    RunLinesAre(run, planned, accepted, merged);
    forall l | l in after && l.source.ForOffer?
      ensures IsKnown(offers, l.source.offer, l.source.ticket) && IsPlaced(l, tickets)
    {
      if l !in before {
        var p, x :| p in planned && x in p.out.remainders && IsWaitLine(l, run, p.product, x, accepted);
        assert Ready(p, tickets, accepted, merged) && WaitMatches(tickets, p.product, x);
        assert IsOpenRow(OfferFor(accepted, x.demand.source.ticket).value, offers, before);
      }
    }
  }

  /** A run brings no offer to life. */
  lemma RunKeepsClaims(offers: seq<OfferRow>, before: seq<LineRow>, after: seq<LineRow>, run: Id, accepted: seq<OfferRow>,
                       planned: seq<PlannedItem>, merged: seq<MergedDemand>, tickets: seq<TicketRow>, clock: Instant)
    requires ClaimsSound(offers, before, tickets, clock) && AreRows(accepted, offers, before)
    requires after == before + RunLines(run, planned, accepted, merged) && AllPlanned(planned, tickets, accepted, merged)
    ensures ClaimsSound(offers, after, tickets, clock)
  {
    RunLinesFit(offers, before, after, run, accepted, planned, merged, tickets);
    hide IsAllocated, LinesNamed, LinesPlaced, DistinctOffers, Dated, AreRows, AllPlanned, RunLines;
    forall o | o in offers && Live(o, after) ensures Live(o, before) {
      if IsAllocated(before, o.id) { StillAllocated(before, after, o.id); }
    }
    assert forall i :: 0 <= i < |offers| ==> offers[i] in offers;
  }

  /** A run serves a ticket only with the offer it allocates; what it leaves accepted still stands. */
  lemma RunKeepsStanding(offers: seq<OfferRow>, before: seq<LineRow>, after: seq<LineRow>, run: Id, accepted: seq<OfferRow>,
                         planned: seq<PlannedItem>, merged: seq<MergedDemand>, tickets: seq<TicketRow>, served: seq<TicketRow>, grown: seq<TicketRow>)
    requires OneLive(offers, before) && AreRows(accepted, offers, before) && AcceptedStand(offers, before, tickets)
    requires after == before + RunLines(run, planned, accepted, merged) && AllPlanned(planned, tickets, accepted, merged)
    requires AllServed(tickets, served, planned) && Grown(served, grown)
    ensures AcceptedStand(offers, after, grown)
  {
    hide IsAllocated, OneLive, AreRows, WaitsHaveOffers, A.Valid, A.IsOutcome, Feasible, RequestsHaveMerged, PlanGrant, RunLines;
    forall o | o in offers && o.status == Accepted && !IsAllocated(after, o.id) ensures Stands(o, grown) {
      if IsAllocated(before, o.id) { StillAllocated(before, after, o.id); }
      assert Stands(o, tickets);
      forall p, x | p in planned && x in p.out.remainders ensures x.demand.source != A.ConfirmedWait(o.ticket) {
        assert Ready(p, tickets, accepted, merged);
        UnallocatedIsUnserved(offers, before, after, run, accepted, merged, planned, p, x, o);
      }
      UnservedTicket(planned, o.ticket);
      assert IsServed(tickets[o.ticket], served[o.ticket], PlanGrant(planned, o.ticket));
    }
  }

  /** The claims after a run, with the waits that its requests left. */
  lemma RunClaims(mid: Db, converted: Db, waiting: Db, run: Id, accepted: seq<OfferRow>, planned: seq<PlannedItem>, merged: seq<MergedDemand>,
                  served: seq<TicketRow>)
    requires ClaimsSound(converted.offers, mid.lines, mid.tickets, mid.clock) && AreRows(accepted, converted.offers, mid.lines)
    requires waiting.offers == converted.offers && waiting.clock == mid.clock
    requires waiting.lines == mid.lines + RunLines(run, planned, accepted, merged) && AllPlanned(planned, mid.tickets, accepted, merged)
    requires AllServed(mid.tickets, served, planned) && Grown(served, waiting.tickets)
    ensures ClaimsSound(waiting.offers, waiting.lines, waiting.tickets, waiting.clock)
    ensures AcceptedStand(converted.offers, mid.lines, mid.tickets) ==> Standing(waiting)
  {
    assert OneLive(converted.offers, mid.lines);
    hide ClaimsSound, AreRows, RunLines, AllPlanned, AcceptedStand, OneLive;
    RunKeepsClaims(converted.offers, mid.lines, waiting.lines, run, accepted, planned, merged, mid.tickets, mid.clock);
    if AcceptedStand(converted.offers, mid.lines, mid.tickets) {
      RunKeepsStanding(converted.offers, mid.lines, waiting.lines, run, accepted, planned, merged, mid.tickets, served, waiting.tickets);
    }
    forall t | 0 <= t < |mid.tickets|
      ensures waiting.tickets[t].store == mid.tickets[t].store && waiting.tickets[t].product == mid.tickets[t].product
    {
      assert IsServed(mid.tickets[t], served[t], PlanGrant(planned, t));
    }
    TicketsKeepClaims(waiting.offers, waiting.lines, mid.tickets, waiting.tickets, waiting.clock);
  }
}
