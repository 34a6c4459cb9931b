/** The allocation jobs over the shared tables: each is one transaction under one lock.

A session's snapshot offers scarce stock to waiting tickets and holds it; stores answer; the final
run expires what was not answered, allocates what is physically there, converts the holds it uses,
returns the others, and attaches the reservations to shipments. */
module StockJobs {
  import opened Common
  import opened Quantities
  import opened Ordering
  import opened StockTables
  import opened StockSnapshot
  import opened StockRun
  import opened StockPersist
  import opened StockOffers
  import opened StockWriting
  import opened StockShipping
  import opened StockIssue
  import opened StockFinal
  import opened LiveOffers
  import opened StockShortage
  import A = Allocation
  import AP = AllocationProperties
  import D = DemandSplit
  import P = PriorityPlanning
  import PP = PlanProperties

  datatype JobResult = Done | Replayed | Failed(reason: Failure)

  function ResultOf(failure: Option<Failure>): JobResult {
    match failure
    case None => Done
    case Some(reason) => Failed(reason)
  }

  const EMPTY := Db(map[], [], [], [], [], [], map[], map[], 0)

  class Warehouse {
    var balances: Balances
    var offers: seq<OfferRow>
    var tickets: seq<TicketRow>
    var lines: seq<LineRow>
    var reservations: seq<Reservation>
    var shipments: seq<ShipmentRow>
    var snapshots: map<Id, seq<SnapshotItem>>
    var runs: map<Id, seq<PlannedItem>>

    /** The time of the last snapshot. */
    ghost var clock: Instant

    ghost function View(): Db
      reads this
    {
      Db(balances, offers, tickets, lines, reservations, shipments, snapshots, runs, clock)
    }

    constructor (ghost start: Instant)
      ensures View() == EMPTY.(clock := start) && Inv(View())
    {
      balances, offers, tickets, lines, reservations, shipments := map[], [], [], [], [], [];
      snapshots, runs, clock := map[], map[], start;
      new;
      forall p ensures Covered(balances, offers, reservations, NOTHING, p) {
      }
    }

    /** The one way a balance changes. */
    method ApplyMovement(product: Id, onHandDelta: int, reservedDelta: int) returns (ok: bool)
      modifies this`balances
      ensures ok == old(Allowed(balances, product, onHandDelta, reservedDelta))
      ensures balances == old(if Allowed(balances, product, onHandDelta, reservedDelta)
                              then Moved(balances, product, onHandDelta, reservedDelta) else balances)
      ensures ok <==> 0 <= old(BalanceOf(balances, product)).reserved + reservedDelta <= old(BalanceOf(balances, product)).onHand + onHandDelta
      ensures ok ==> BalanceOf(balances, product).onHand == old(BalanceOf(balances, product)).onHand + onHandDelta
                     && BalanceOf(balances, product).reserved == old(BalanceOf(balances, product)).reserved + reservedDelta
      ensures forall p :: p != product ==> BalanceOf(balances, p) == old(BalanceOf(balances, p))
    {
      var b := if product in balances then balances[product] else Balance(0, 0);
      var onHandAfter, reservedAfter := b.onHand + onHandDelta, b.reserved + reservedDelta;
      if onHandAfter < 0 || reservedAfter < 0 || reservedAfter > onHandAfter { return false; }
      balances := balances[product := Balance(onHandAfter, reservedAfter)];
      ok := true;
    }

    /** Stock enters or leaves the warehouse. */
    method ChangeOnHand(product: Id, delta: int) returns (ok: bool)
      requires Inv(View())
      modifies this`balances
      ensures Inv(View()) && ok == old(Allowed(balances, product, delta, 0)) && Standing(View()) == old(Standing(View()))
      ensures balances == old(if Allowed(balances, product, delta, 0) then Moved(balances, product, delta, 0) else balances)
    {
      hide ReservationsSound, ShipmentsSound, TicketsSound, OffersSound, SnapshotsSound, ClaimsSound, Stocked;
      if Allowed(balances, product, delta, 0) { StockChanged(balances, offers, reservations, NOTHING, product, delta); }
      ok := ApplyMovement(product, delta, 0);
    }

    /** The products a store's result still holds, each once. */
    method ResultProducts(run: Id, store: Id) returns (products: seq<Id>)
      ensures Distinct(products)
      ensures forall p :: p in products <==> exists r :: r in reservations && r.product == p && InResult(r, lines, run, store)
    {
      hide InResult;
      products := [];
      for i := 0 to |reservations|
        invariant Distinct(products)
        invariant forall p :: p in products <==> exists r :: r in reservations[..i] && r.product == p && InResult(r, lines, run, store)
      {
        var r := reservations[i];
        assert reservations[..i + 1] == reservations[..i] + [r];
        if InResult(r, lines, run, store) && r.product !in products { products := products + [r.product]; }
      }
      assert reservations[..|reservations|] == reservations;
    }

    /** A store's result is issued with one order: every hold it still has, product by product.  No
    movement is refused. */
    method IssueOrder(run: Id, store: Id)
      requires Inv(View())
      modifies this`balances, this`reservations
      ensures Inv(View()) && Standing(View()) == old(Standing(View()))
      ensures |reservations| == old(|reservations|)
      ensures forall i :: 0 <= i < |reservations| ==>
        reservations[i] == old(if InResult(reservations[i], lines, run, store) then reservations[i].(status := Issued) else reservations[i])
      ensures forall i :: 0 <= i < |reservations| ==>
        var was := old(reservations[i]);
        reservations[i].status == if was.line < |lines| && lines[was.line].run == run && lines[was.line].store == store == was.store
                                  then Issued else was.status
      ensures forall p :: old(BalanceOf(balances, p)).onHand - BalanceOf(balances, p).onHand == old(BalanceOf(balances, p)).reserved - BalanceOf(balances, p).reserved
      ensures forall p :: old(ResultHolds(reservations, lines, run, store, p)) <= old(BalanceOf(balances, p).reserved)
                          && BalanceOf(balances, p) == old(Lowered(BalanceOf(balances, p), ResultHolds(reservations, lines, run, store, p)))
    {
      hide ReservationsSound, ShipmentsSound, TicketsSound, OffersSound, SnapshotsSound, ClaimsSound, Stocked, InResult, ResultHolds,
           Issuing, IssuedRows;
      ghost var start := View();
      HoldsAreReserved(start, run, store);
      var products := ResultProducts(run, store);
      IssuingStarts(start, run, store, products);
      for k := 0 to |products|
        invariant Issuing(start, balances, reservations, run, store, products, k)
      {
        var quantity: int := ResultHolds(reservations, lines, run, store, products[k]);
        IssuingStep(start, balances, reservations, run, store, products, k);
        reservations := IssuedRows(reservations, lines, run, store, [products[k]]);
        var ok := ApplyMovement(products[k], -quantity, -quantity);
        assert ok;
      }
      IssuingEnds(start, balances, reservations, run, store, products);
      IssuedIsSound(start.reservations, lines, shipments, run, store, products);
      ResultMembers(lines, run, store);
    }

    /** Ends the wait of a ticket whose full offer was declined or not answered. */
    method CancelForFullOffer(o: OfferRow) returns (cancelled: bool)
      requires o.ticket < |tickets| && TicketsSound(tickets)
      modifies this`tickets
      ensures TicketsSound(tickets)
      ensures cancelled == old(EndsWait(o, tickets[o.ticket], offers, lines))
      ensures cancelled
        <==> && old(tickets[o.ticket]).status == Waiting && o.eligible <= o.offered && old(tickets[o.ticket]).remaining <= o.offered
             && (forall x :: x in offers && x.ticket == o.ticket ==> x.status != Offered && (x.status == Accepted ==> IsAllocated(lines, x.id)))
      ensures tickets == old(if EndsWait(o, tickets[o.ticket], offers, lines)
                             then tickets[o.ticket := tickets[o.ticket].(status := Cancelled)] else tickets)
    {
      hide TicketsSound, Live, Full;
      WhenWaitsEnd(o, tickets[o.ticket], offers, lines);
      var t := tickets[o.ticket];
      if t.status != Waiting { return false; }
      if !Full(o, t) { return false; }
      if exists x :: x in offers && x.ticket == o.ticket && Live(x, lines) { return false; }
      TicketEnded(tickets, o.ticket);
      tickets := tickets[o.ticket := t.(status := Cancelled)];
      cancelled := true;
    }

    /** A store answers an offer, or its deadline is noticed. */
    method RespondOffer(i: nat, action: Action, now: Instant) returns (r: Response, cancelled: bool)
      requires Inv(View())
      modifies this`balances, this`offers, this`tickets
      ensures Inv(View()) && SameOnHand(balances, old(balances)) && (old(Standing(View())) ==> Standing(View()))
      ensures i >= old(|offers|) ==> r == Rejected(OfferMissing)
      ensures i < old(|offers|) ==> old(offers[i].ticket < |tickets|) && r == old(PlanResponse(offers[i], tickets[offers[i].ticket], action, now))
      ensures r.Rejected? ==> View() == old(View()) && !cancelled
      ensures r.Responded? ==> i < old(|offers|) && offers == old(offers)[i := Answered(old(offers[i]), r)]
      ensures r.Responded? ==> i < old(|offers|) && offers[i] == old(offers[i]).(
        status := r.status, accepted := r.accepted, held := if r.status == Accepted then old(offers[i].held) else 0)
      ensures r.Responded? ==> cancelled == ((r.status == Declined || r.status == Expired)
                                             && EndsWait(old(offers[i]), old(tickets[offers[i].ticket]), offers, lines))
      ensures r.Responded? ==> tickets == if cancelled
        then old(tickets[offers[i].ticket := tickets[offers[i].ticket].(status := Cancelled)]) else old(tickets)
    {
      hide ReservationsSound, ShipmentsSound, TicketsSound, SnapshotsSound, ClaimsSound, AcceptedStand, Stocked, EndsWait;
      if i >= |offers| { return Rejected(OfferMissing), false; }
      var o := offers[i];
      assert o in offers;
      var t := tickets[o.ticket];
      r := PlanResponse(o, t, action, now);
      if r.Rejected? { return r, false; }
      HoldChanged(balances, offers, reservations, NOTHING, i, Answered(o, r));
      OfferReplaced(offers, tickets, snapshots, i, Answered(o, r));
      AnswerKeepsClaims(offers, lines, tickets, clock, i, action, now);
      hide OffersSound;
      if r.status != Accepted && o.held > 0 {
        var ok := ApplyMovement(o.product, 0, 0 - o.held);
        assert ok;
      }
      offers := offers[i := Answered(o, r)];
      cancelled := false;
      if r.status == Declined || r.status == Expired {
        if EndsWait(o, t, offers, lines) { CancelKeepsClaims(o, offers, lines, tickets, clock); }
        cancelled := CancelForFullOffer(o);
        TicketsReplaced(offers, old(tickets), tickets, snapshots);
      }
    }

    /** Unanswered offers lapse and give back what they hold. */
    method ExpireOffers(session: Session) returns (lapsed: seq<OfferRow>)
      requires Inv(View())
      modifies this`balances, this`offers
      ensures Inv(View()) && SameOnHand(balances, old(balances)) && (old(Standing(View())) ==> Standing(View()))
      ensures offers == LapsedOffers(old(offers), session) && lapsed == Expiring(old(offers), session)
      ensures forall i :: 0 <= i < |offers| ==>
        var o := old(offers)[i];
        offers[i] == if o.status == Offered && (o.deadline < session.finalDueAt || (o.deadline == session.finalDueAt && o.session == session.id))
                     then o.(status := Expired, accepted := 0, held := 0) else o
      ensures balances == Released(old(balances), lapsed)
    {
      hide ReservationsSound, ShipmentsSound, TicketsSound, SnapshotsSound, ClaimsSound, AcceptedStand, Stocked, Expirable, Released, Filter;
      LapsedKeepsClaims(offers, lines, tickets, clock, session);
      lapsed := [];
      NoneExpiring(balances, session);
      for i := 0 to |offers|
        invariant |offers| == |old(offers)|
        invariant Stocked(balances, offers, reservations, NOTHING) && OffersSound(offers, tickets, snapshots)
        invariant SameOnHand(balances, old(balances))
        invariant forall k :: 0 <= k < |offers| ==> offers[k] == if k < i then Lapsed(old(offers)[k], session) else old(offers)[k]
        invariant lapsed == Expiring(old(offers)[..i], session) && balances == Released(old(balances), lapsed)
      {
        var o := offers[i];
        NextExpiring(old(balances), old(offers), i, session);
        if Expirable(o, session) {
          assert o in offers;
          HoldChanged(balances, offers, reservations, NOTHING, i, Lapsed(o, session));
          OfferReplaced(offers, tickets, snapshots, i, Lapsed(o, session));
          if o.held > 0 {
            var ok := ApplyMovement(o.product, 0, 0 - o.held);
            assert ok;
          }
          offers := offers[i := Lapsed(o, session)];
          lapsed := lapsed + [o];
        }
      }
      assert old(offers)[..|offers|] == old(offers);
      assert offers == LapsedOffers(old(offers), session);
      WhenOffersLapse(session);
    }

    /** A full offer left unanswered ends the wait; a partial one leaves the ticket waiting. */
    method CancelTimedOut(lapsed: seq<OfferRow>)
      requires Inv(View()) && forall o :: o in lapsed ==> o.ticket < |tickets|
      modifies this`tickets
      ensures Inv(View()) && tickets == TimedOut(old(tickets), lapsed, offers, lines) && (old(Standing(View())) ==> Standing(View()))
    {
      hide ReservationsSound, ShipmentsSound, TicketsSound, SnapshotsSound, ClaimsSound, AcceptedStand, Stocked, OffersSound, EndsWait;
      TimeoutKeepsClaims(offers, lines, tickets, lapsed, clock);
      assert tickets == TimedOut(tickets, [], offers, lines);
      for i := 0 to |lapsed|
        invariant TicketsSound(tickets) && tickets == TimedOut(old(tickets), lapsed[..i], offers, lines)
      {
        OneMoreTimedOut(old(tickets), lapsed[..i], lapsed[i], offers, lines);
        assert lapsed[..i] + [lapsed[i]] == lapsed[..i + 1];
        var cancelled := CancelForFullOffer(lapsed[i]);
      }
      assert lapsed[..|lapsed|] == lapsed;
      TicketsReplaced(offers, old(tickets), tickets, snapshots);
    }

    // -------------------------------------------------------------------------------------------
    // The snapshot
    // -------------------------------------------------------------------------------------------

    /** Offer rows are inserted, then their stock is held, one movement each. */
    method HoldOffers(session: Session, plan: seq<P.PlannedOffer>)
      requires Stocked(balances, offers, reservations, NOTHING)
      requires forall x :: x in plan ==> x.offer.ticket >= 0
      requires forall p :: BalanceOf(balances, p).reserved + PP.PlannedFor(plan, p) <= BalanceOf(balances, p).onHand
      modifies this`balances, this`offers
      ensures offers == old(offers) + OfferedRows(session, plan)
      ensures Stocked(balances, offers, reservations, NOTHING) && SameOnHand(balances, old(balances))
    {
      hide Stocked, Total;
      assert plan[..0] == [];
      assert forall p :: PP.PlannedFor(plan[..0], p) == 0 by { NothingPlanned(); }
      for i := 0 to |plan|
        invariant offers == old(offers) + OfferedRows(session, plan)[..i]
        invariant Stocked(balances, offers, reservations, NOTHING) && SameOnHand(balances, old(balances))
        invariant forall p :: BalanceOf(balances, p).reserved == old(BalanceOf(balances, p).reserved) + PP.PlannedFor(plan[..i], p)
      {
        var row := OfferedRow(session, plan[i]);
        assert row == OfferedRows(session, plan)[i];
        PlannedNext(plan, i);
        HoldAdded(balances, offers, reservations, NOTHING, row);
        offers := offers + [row];
        var ok := ApplyMovement(row.product, 0, row.held);
        assert ok;
      }
    }

    /** The opening snapshot of a session: record the stock, offer what is scarce, hold what is offered.
    It runs once its time has come, and no earlier than the snapshot before it.  The check that every
    offer can be read never fails, and no ticket gets a second live offer. */
    method CaptureSnapshot(row: Option<SessionRow>, session: Session, items: seq<SnapshotItem>, caps: map<Id, int>, offerId: Id -> Id, processedAt: Instant)
      returns (r: JobResult)
      requires Inv(View()) && ItemsDistinct(items)
      requires row.Some? ==> row.value.session.id == session.id && Scheduled(row.value.session)
      requires session.snapshotDueAt <= processedAt && clock <= processedAt
      requires FreshIds(offerId, offers)
      modifies this`balances, this`offers, this`snapshots, this`clock
      ensures Inv(View()) && SameOnHand(balances, old(balances))
      ensures r != Done ==> View() == old(View())
      ensures Standing(old(View())) ==> Standing(View())
      ensures r == if row.None? then Failed(SessionMissing)
                   else if session.id in old(snapshots) then Replayed
                   else if row.value.session != session || !row.value.runnable then Failed(SessionChanged)
                   else if session.snapshotDueAt < session.finalDueAt && processedAt < session.finalDueAt
                           && old(P.Plan(SnapshotInput(View(), session, items, caps, offerId))).Failure?
                   then Failed(PlanRefused) else Done
      ensures r == Done ==> snapshots == old(snapshots)[session.id := items] && clock == processedAt
      ensures r == Done && !(session.snapshotDueAt < session.finalDueAt && processedAt < session.finalDueAt) ==> offers == old(offers)
      ensures r == Done && session.snapshotDueAt < session.finalDueAt && processedAt < session.finalDueAt ==>
        var plan := old(P.Plan(SnapshotInput(View(), session, items, caps, offerId)));
        && plan.Success? && (forall x :: x in plan.value ==> x.offer.ticket >= 0)
        && offers == old(offers) + OfferedRows(session, plan.value)
    {
      hide ReservationsSound, ShipmentsSound, TicketsSound, ClaimsSound, OneLive, Stocked, P.Plan, PP.PlannedFor, OfferSound, OfferedRow,
           SnapshotInput, Readable, FreshIds, Scheduled, BusinessDate, HasProduct, AcceptedStand;
      if row.None? { return Failed(SessionMissing); }
      if session.id in snapshots { return Replayed; }
      if !Matches(row.value, session) { return Failed(SessionChanged); }
      OffersAreReadable(offers, lines, tickets, clock, session.businessDate);
      assert Readable(offers, lines, session.businessDate);
      if !InTime(session, processedAt) {
        NoOffersAreSound(View(), session, items);
        NothingAddedKeepsClaims(offers, lines, tickets, clock, processedAt);
        snapshots, clock := snapshots[session.id := items], processedAt;
        return Done;
      }
      var waiting := LoadTickets();
      var input := P.PlanInput(session.businessDate, session.snapshotDueAt, session.finalDueAt,
                               OfferableStock(balances, caps, items), waiting, LoadedOffers(offers, lines, session.businessDate),
                               AlreadyReserved(offers, lines, session.businessDate), offerId);
      assert input == SnapshotInput(View(), session, items, caps, offerId) by { InputIs(View(), session, items, caps, offerId); }
      WaitingTicketsAre(View(), |tickets|);
      assert forall t, t' :: offerId(t) == offerId(t') ==> t == t' by { FreshAreDistinct(offerId, offers); }
      InputTickets(View(), session, items, caps, offerId);
      var plan := P.PlanPriorityOffers(input);
      if plan.Failure? { return Failed(PlanRefused); }
      PlannedRowsAreSound(View(), session, items, caps, offerId);
      SnapshotKeepsClaims(View(), session, items, caps, offerId, processedAt);
      forall p ensures BalanceOf(balances, p).reserved + PP.PlannedFor(plan.value, p) <= BalanceOf(balances, p).onHand {
        assert BalanceOf(balances, p).reserved <= BalanceOf(balances, p).onHand by { IsCovered(View(), p); }
        PlanFitsFreeStock(View(), session, items, caps, offerId, p);
      }
      PlannedRowsFit(View(), session, items, plan.value);
      HoldOffers(session, plan.value);
      snapshots, clock := snapshots[session.id := items], processedAt;
      r := Done;
    }

    // -------------------------------------------------------------------------------------------
    // The final run: planning
    // -------------------------------------------------------------------------------------------

    /** What is free now, plus what the session's accepted offers hold. */
    method LoadAllocationCapacity(session: Id, caps: map<Id, int>) returns (capacity: map<Id, int>)
      ensures forall p :: IntAt(capacity, p) == Capacity(View(), session, caps, p)
    {
      hide Owned;
      capacity := map p | p in balances.Keys + caps.Keys :: FreeToAllocate(balances, caps, p);
      for i := 0 to |offers|
        invariant forall p :: IntAt(capacity, p) == FreeToAllocate(balances, caps, p) + HeldByAccepted(offers[..i], lines, session, p)
      {
        var o := offers[i];
        NextHold(offers, i, lines, session);
        if Owned(o, lines, session) && o.held > 0 {
          capacity := capacity[o.product := IntAt(capacity, o.product) + o.held];
        }
      }
      assert offers[..|offers|] == offers;
    }

    /** Every product of the snapshot is planned; the first wait or product that cannot be ends the run. */
    method AllocateItems(session: Id, input: RunInput, items: seq<SnapshotItem>)
      returns (planned: seq<PlannedItem>, failure: Option<Failure>)
      ensures failure.None? ==> |planned| == |items|
      ensures failure.None? ==> forall k :: 0 <= k < |items| ==> IsPlanned(View(), session, input, items[k], planned[k])
      ensures failure.None? && items != [] ==> WaitsStand(offers, lines, tickets, session)
      ensures failure.Some? ==> items != [] && failure.value in {WaitChanged, AllocatorRefused}
      ensures failure == Some(WaitChanged) <==> items != [] && !WaitsStand(offers, lines, tickets, session)
      ensures failure == Some(AllocatorRefused) ==>
        exists item :: item in items && !A.Valid(AllocatorInput(View(), session, input, item))
      ensures failure.None? ==> forall item :: item in items ==> A.Valid(AllocatorInput(View(), session, input, item))
    {
      hide Owned, A.Valid, A.IsOutcome, Capacity, AllocatableSnapshotQuantity, RequestDemands, WaitDemands, WaitsStand;
      var capacity := LoadAllocationCapacity(session, input.caps);
      planned := [];
      for k := 0 to |items|
        invariant |planned| == k
        invariant forall j :: 0 <= j < k ==> IsPlanned(View(), session, input, items[j], planned[j])
        invariant k > 0 ==> WaitsStand(offers, lines, tickets, session)
      {
        var item := items[k];
        if !WaitsStand(offers, lines, tickets, session) { return [], Some(WaitChanged); }
        var stock := AllocatableSnapshotQuantity(item.available, IntAt(capacity, item.product));
        var allocator := A.Input(
          stock, RequestDemands(input.merged, item.product) + WaitDemands(offers, lines, session, item.product, input.waitId),
          input.storeOrder, if item.product in input.cursors then Some(input.cursors[item.product]) else None);
        assert allocator == AllocatorInput(View(), session, input, item);
        var r := A.AllocateInventory(allocator);
        if r.InvalidArgument? {
          assert item in items && !A.Valid(AllocatorInput(View(), session, input, item));
          return [], Some(AllocatorRefused);
        }
        planned := planned + [PlannedItem(item.product, allocator, r.value)];
      }
      PlannedAreValid(View(), session, input, items, planned);
      failure := None;
    }

    // -------------------------------------------------------------------------------------------
    // The final run: converting holds
    // -------------------------------------------------------------------------------------------

    /** An accepted offer keeps as much of its hold as its ticket was granted; the rest is released. */
    method ConvertHolds(session: Id, planned: seq<PlannedItem>) returns (kept: map<Id, nat>)
      requires Stocked(balances, offers, reservations, NOTHING) && OffersSound(offers, tickets, snapshots)
      modifies this`balances, this`offers
      ensures Stocked(balances, offers, reservations, kept) && OffersSound(offers, tickets, snapshots)
      ensures SameOnHand(balances, old(balances)) && offers == ConvertedOffers(old(offers), lines, session)
      ensures forall p :: AtKey(kept, p) == KeptFor(planned, old(offers), lines, session, p)
    {
      hide Stocked, Owned, KeptOf, KeptFor, OffersSound;
      NothingKeptYet(planned, lines, session);
      var granted := GrantsByTicket(planned);
      kept := map[];
      for i := 0 to |offers|
        invariant |offers| == |old(offers)|
        invariant Stocked(balances, offers, reservations, kept) && OffersSound(offers, tickets, snapshots)
        invariant SameOnHand(balances, old(balances))
        invariant forall k :: 0 <= k < |offers| ==> offers[k] == if k < i then Converted(old(offers)[k], lines, session) else old(offers)[k]
        invariant forall p :: AtKey(kept, p) == KeptFor(planned, old(offers)[..i], lines, session, p)
      {
        var o := offers[i];
        assert OfferSound(o, tickets) && OfferSound(Converted(o, lines, session), tickets) by { ConvertedIsSound(offers, tickets, snapshots, lines, session, i); }
        ghost var kept0 := kept;
        if Owned(o, lines, session) {
          var retained := Min(o.held, if o.ticket in granted then granted[o.ticket] else 0);
          assert retained == KeptOf(planned, o) by { KeptIs(planned, o); }
          HoldKept(balances, offers, reservations, kept, i, Converted(o, lines, session), retained);
          OfferReplaced(offers, tickets, snapshots, i, Converted(o, lines, session));
          if o.held - retained > 0 {
            var ok := ApplyMovement(o.product, 0, retained - o.held);
            assert ok;
          }
          kept := kept[o.product := AtKey(kept, o.product) + retained];
          offers := offers[i := Converted(o, lines, session)];
        }
        NextKept(kept0, kept, planned, old(offers), i, lines, session);
      }
      assert old(offers)[..|offers|] == old(offers);
    }

    // -------------------------------------------------------------------------------------------
    // The final run: writing the result
    // -------------------------------------------------------------------------------------------

    /** A result line, with its reservation when it grants something. */
    method AddLine(line: LineRow)
      requires ReservationsSound(reservations, lines, shipments) && ShipmentsSound(reservations, shipments)
      modifies this`lines, this`reservations
      ensures lines == old(lines) + [line]
      ensures reservations == old(reservations) + ReservationOf(line, old(|lines|))
      ensures ReservationsSound(reservations, lines, shipments) && ShipmentsSound(reservations, shipments)
      ensures Written(old(View()), View(), line.run, line.store, line.product, line.granted, line.waitlisted)
    {
      hide ReservationsSound, ShipmentsSound, ActivelyReserved, LineGrants, LineWaits;
      LineAdded(lines, reservations, shipments, line);
      if line.granted > 0 {
        reservations := reservations + [Reservation(line.product, line.store, |lines|, line.granted, Reserved, None)];
      } else {
        assert reservations + [] == reservations;
      }
      lines := lines + [line];
    }

    /** The line of an accepted offer, and its ticket served. */
    method PersistWait(session: Id, product: Id, x: A.Remainder, accepted: seq<OfferRow>)
      requires ReservationsSound(reservations, lines, shipments) && ShipmentsSound(reservations, shipments) && TicketsSound(tickets)
      requires x.demand.source.ConfirmedWait? && 0 <= x.demand.source.ticket < |tickets|
      requires x.granted <= tickets[x.demand.source.ticket].remaining
      requires x.granted > 0 ==> tickets[x.demand.source.ticket].status == Waiting
      requires OfferFor(accepted, x.demand.source.ticket).Some?
      modifies this`tickets, this`lines, this`reservations
      ensures ReservationsSound(reservations, lines, shipments) && ShipmentsSound(reservations, shipments) && TicketsSound(tickets)
      ensures Written(old(View()), View(), session, x.demand.store, product, x.granted, x.remaining)
      ensures lines == old(lines) + [WaitLine(session, product, x, OfferFor(accepted, x.demand.source.ticket).value)]
      ensures tickets == old(tickets[x.demand.source.ticket := ServedTicket(tickets[x.demand.source.ticket], x.granted)])
    {
      hide ReservationsSound, ShipmentsSound, TicketsSound, ActivelyReserved, LineGrants, LineWaits;
      var t: nat := x.demand.source.ticket;
      var offer := FindOffer(accepted, t);
      AddLine(WaitLine(session, product, x, offer.value));
      TicketServed(tickets, t, x.granted);
      if x.granted > 0 {
        var row := tickets[t];
        var remaining := row.remaining - x.granted;
        tickets := tickets[t := row.(remaining := remaining, fulfilled := row.fulfilled + x.granted,
                                     status := if remaining == 0 then Fulfilled else Waiting)];
      }
    }

    /** The lines of a merged demand, one per source line; they always reconcile. */
    method PersistRequest(session: Id, p: PlannedItem, i: nat, m: MergedDemand)
      requires ReservationsSound(reservations, lines, shipments) && ShipmentsSound(reservations, shipments)
      requires A.Valid(p.input) && A.IsOutcome(p.input, p.out) && i < |p.out.remainders|
      requires p.out.remainders[i].demand.requested == Sum(D.LineQuantities(m.lines))
      modifies this`lines, this`reservations
      ensures ReservationsSound(reservations, lines, shipments) && ShipmentsSound(reservations, shipments)
      ensures Written(old(View()), View(), session, p.out.remainders[i].demand.store, p.product,
                      p.out.remainders[i].granted, p.out.remainders[i].remaining)
      ensures lines == old(lines) + RequestLines(session, p.out.remainders[i].demand.store, p.product, m.lines, p.out.remainders[i].granted)
    {
      hide ReservationsSound, ShipmentsSound, A.Valid, A.IsOutcome, Sum, D.IsSplit, D.LineQuantities, Written, Total;
      var x := p.out.remainders[i];
      var steps := AP.StepsFor(p.out.steps, x.demand.id);
      var split := D.SplitOverSources(m.lines, x.granted, steps);
      assert split.Split? by { D.GrantsReconcile(p.input, p.out, i, m.lines); }
      var shares := split.shares;
      assert Total(shares, Share) == x.granted && Total(shares, Short) == x.remaining by {
        D.GrantsReconcile(p.input, p.out, i, m.lines);
        D.SplitIsConserved(m.lines, x.granted, steps, shares);
        SharesAre(shares);
        RemaindersAddUp(p, i);
      }
      NothingWritten(View(), session, x.demand.store, p.product, shares);
      ghost var rows := RequestLines(session, x.demand.store, p.product, m.lines, x.granted);
      SharesAreRows(session, x.demand.store, p.product, m.lines, x.granted, steps, shares);
      for j := 0 to |shares|
        invariant ReservationsSound(reservations, lines, shipments) && ShipmentsSound(reservations, shipments)
        invariant Written(old(View()), View(), session, x.demand.store, p.product, Total(shares[..j], Share), Total(shares[..j], Short))
        invariant lines == old(lines) + rows[..j]
      {
        var share := shares[j];
        ghost var before := View();
        TotalTake(shares, j, Share);
        TotalTake(shares, j, Short);
        AddLine(ShareLine(session, x.demand.store, p.product, share));
        assert rows[..j + 1] == rows[..j] + [rows[j]];
        WrittenTwice(old(View()), before, View(), session, x.demand.store, p.product, Total(shares[..j], Share), Total(shares[..j], Short),
                     share.granted, share.waitlisted);
      }
      assert shares[..|shares|] == shares && rows[..|shares|] == rows;
    }

    /** Everything a product's plan grants is written: lines, reservations, tickets served. */
    method PersistRemainders(session: Id, merged: seq<MergedDemand>, p: PlannedItem, accepted: seq<OfferRow>)
      returns (waits: seq<WaitRemainder>)
      requires ReservationsSound(reservations, lines, shipments) && ShipmentsSound(reservations, shipments) && TicketsSound(tickets)
      requires A.Valid(p.input) && A.IsOutcome(p.input, p.out)
      requires Feasible(tickets, p.product, p.out.remainders) && WaitsHaveOffers(accepted, p.out.remainders)
      requires MergedSound(merged) && RequestsHaveMerged(merged, p)
      modifies this`tickets, this`lines, this`reservations
      ensures ReservationsSound(reservations, lines, shipments) && ShipmentsSound(reservations, shipments) && TicketsSound(tickets)
      ensures forall t: nat :: t < old(|tickets|) ==> TicketGrant(p.out.remainders, t) <= old(tickets)[t].remaining
      ensures tickets == ServedTickets(old(tickets), p.out.remainders)
      ensures ItemWritten(old(View()), View(), session, p)
      ensures waits == WaitRemainders(p.product, p.out.remainders)
      ensures WithItemLines(old(lines), lines, session, p.product, p.out.remainders, accepted, merged)
    {
      hide ReservationsSound, ShipmentsSound, TicketsSound, A.Valid, A.IsOutcome, Feasible, WaitsHaveOffers, MergedSound,
           RequestsHaveMerged, TicketGrant, ItemWritten, SoFarWritten, Written, OfferFor, MergedFor, RequestLines, WaitLine, WithItemLines;
      var xs := p.out.remainders;
      waits := [];
      NothingYet(View(), session, p);
      NoItemLines(lines, session, p.product, xs, accepted, merged);
      for i := 0 to |xs|
        invariant ReservationsSound(reservations, lines, shipments) && ShipmentsSound(reservations, shipments) && TicketsSound(tickets)
        invariant forall t: nat :: t < old(|tickets|) ==> TicketGrant(xs[..i], t) <= old(tickets)[t].remaining
        invariant tickets == ServedTickets(old(tickets), xs[..i])
        invariant SoFarWritten(old(View()), View(), session, p, i)
        invariant waits == WaitRemainders(p.product, xs[..i])
        invariant WithItemLines(old(lines), lines, session, p.product, xs[..i], accepted, merged)
      {
        var x := xs[i];
        ghost var before := View();
        NextServed(old(tickets), p.product, xs, i);
        NextWait(p.product, xs, i);
        if x.demand.source.ConfirmedWait? {
          HasOffer(accepted, xs, i);
          PersistWait(session, p.product, x, accepted);
        } else {
          var m := FindMerged(merged, x.demand.id);
          HasMerged(merged, p, i);
          PersistRequest(session, p, i, m.value);
          if x.remaining > 0 { waits := waits + [WaitRemainder(x.demand.store, p.product, x.remaining)]; }
        }
        NextItemLines(old(lines), before.lines, lines, session, p.product, xs, i, accepted, merged);
        NextWritten(old(View()), before, View(), session, p, i);
      }
      assert xs[..|xs|] == xs;
      AllWritten(old(View()), View(), session, p);
    }

    /** A product's result is written, and the stock it takes beyond the kept holds is reserved.  The
    additional reservation is never negative and never more than is free. */
    method PersistItem(session: Id, merged: seq<MergedDemand>, p: PlannedItem, accepted: seq<OfferRow>, kept: map<Id, nat>,
                       ghost pending: map<Id, nat>) returns (waits: seq<WaitRemainder>)
      requires Stocked(balances, offers, reservations, pending) && Room(balances, pending, p) && AtKey(pending, p.product) == AtKey(kept, p.product)
      requires ReservationsSound(reservations, lines, shipments) && ShipmentsSound(reservations, shipments) && TicketsSound(tickets)
      requires A.Valid(p.input) && A.IsOutcome(p.input, p.out)
      requires Feasible(tickets, p.product, p.out.remainders) && WaitsHaveOffers(accepted, p.out.remainders)
      requires MergedSound(merged) && RequestsHaveMerged(merged, p)
      modifies this`balances, this`tickets, this`lines, this`reservations
      ensures Stocked(balances, offers, reservations, pending[p.product := 0])
      ensures SameOnHand(balances, old(balances)) && SameElsewhere(balances, old(balances), p.product)
      ensures ReservationsSound(reservations, lines, shipments) && ShipmentsSound(reservations, shipments) && TicketsSound(tickets)
      ensures forall t: nat :: t < old(|tickets|) ==> TicketGrant(p.out.remainders, t) <= old(tickets)[t].remaining
      ensures tickets == ServedTickets(old(tickets), p.out.remainders)
      ensures ItemWritten(old(View()), View(), session, p)
      ensures waits == WaitRemainders(p.product, p.out.remainders)
      ensures WithItemLines(old(lines), lines, session, p.product, p.out.remainders, accepted, merged)
    {
      hide Stocked, ReservationsSound, ShipmentsSound, TicketsSound, A.Valid, A.IsOutcome, Feasible, WaitsHaveOffers, MergedSound,
           RequestsHaveMerged, TicketGrant, ActivelyReserved, LineGrants, LineWaits, Sum, Total, WithItemLines;
      waits := PersistRemainders(session, merged, p, accepted);
      assert p.out.granted == Sum(A.Granted(p.out.remainders)) by { GrantedIsSum(p); }
      ReservationBooked(balances, offers, old(reservations), reservations, pending, p);
      var additional := p.out.granted - AtKey(kept, p.product);
      if additional > 0 {
        var ok := ApplyMovement(p.product, 0, additional);
        assert ok;
      }
    }

    /** All products of the run, one after the other. */
    method PersistItems(session: Id, merged: seq<MergedDemand>, planned: seq<PlannedItem>, accepted: seq<OfferRow>, kept: map<Id, nat>)
      returns (waits: seq<WaitRemainder>)
      requires Stocked(balances, offers, reservations, kept) && RoomForAll(balances, kept, planned) && KeptOnlyFor(kept, planned)
      requires ReservationsSound(reservations, lines, shipments) && ShipmentsSound(reservations, shipments) && TicketsSound(tickets)
      requires AllPlanned(planned, tickets, accepted, merged) && ProductsDistinct(planned) && MergedSound(merged)
      modifies this`balances, this`tickets, this`lines, this`reservations
      ensures Stocked(balances, offers, reservations, NOTHING) && SameOnHand(balances, old(balances))
      ensures ReservationsSound(reservations, lines, shipments) && ShipmentsSound(reservations, shipments) && TicketsSound(tickets)
      ensures AllServed(old(tickets), tickets, planned)
      ensures waits == AllWaitRemainders(planned)
      ensures Tallied(old(View()), View(), session, planned) && WithRunLines(old(lines), lines, session, planned, accepted, merged)
    {
      hide Stocked, ReservationsSound, ShipmentsSound, TicketsSound, AllPlanned, RoomForAll, KeptOnlyFor, ProductsDistinct, MergedSound,
           ItemWritten, AllServed, Tallied, StillToCome, SameOnHand, WithRunLines, WithItemLines, Feasible;
      waits := [];
      ghost var pending := kept;
      StartOfItems(View(), session, planned, accepted, merged, kept);
      for k := 0 to |planned|
        invariant Stocked(balances, offers, reservations, pending) && SameOnHand(balances, old(balances))
        invariant ReservationsSound(reservations, lines, shipments) && ShipmentsSound(reservations, shipments) && TicketsSound(tickets)
        invariant StillToCome(balances, tickets, kept, pending, planned, accepted, merged, k)
        invariant AllServed(old(tickets), tickets, planned[..k])
        invariant waits == AllWaitRemainders(planned[..k])
        invariant Tallied(old(View()), View(), session, planned[..k])
        invariant WithRunLines(old(lines), lines, session, planned[..k], accepted, merged)
      {
        var p := planned[k];
        ghost var before := View();
        ItemIsReady(balances, tickets, kept, pending, planned, accepted, merged, k);
        var more := PersistItem(session, merged, p, accepted, kept, pending);
        OthersStillToCome(before, View(), kept, pending, planned, accepted, merged, k);
        ServedByOneMore(old(tickets), before.tickets, tickets, planned, k);
        OneMoreItem(old(View()), before, View(), session, planned, k);
        NextRunLines(old(lines), before.lines, lines, session, planned, k, accepted, merged);
        pending := pending[p.product := 0];
        assert planned[..k + 1][..k] == planned[..k];
        waits := waits + more;
        SameOnHandTwice(old(balances), before.balances, balances);
      }
      assert planned[..|planned|] == planned;
      NothingToCome(balances, tickets, kept, pending, planned, accepted, merged);
      NothingKept(balances, offers, reservations, pending);
    }

    // -------------------------------------------------------------------------------------------
    // The final run: new waits
    // -------------------------------------------------------------------------------------------

    /** The wait of a store for a product; it has at most one. */
    method FindWaiting(store: Id, product: Id) returns (r: Option<nat>)
      ensures match r
        case Some(t) => t < |tickets| && WaitsFor(tickets[t], store, product)
        case None => forall t :: 0 <= t < |tickets| ==> !WaitsFor(tickets[t], store, product)
      ensures TicketsSound(tickets) ==> r == ActiveWait(tickets, store, product)
    {
      hide TicketsSound, ActiveWait;
      for t := 0 to |tickets|
        invariant forall k :: 0 <= k < t ==> !WaitsFor(tickets[k], store, product)
      {
        if WaitsFor(tickets[t], store, product) {
          if TicketsSound(tickets) { OneWait(tickets, store, product, t); }
          return Some(t);
        }
      }
      r := None;
    }

    /** What requests did not get is added to the store's waiting ticket, or opens one. */
    method PersistWaitRemainders(waits: seq<WaitRemainder>, now: Instant)
      requires TicketsSound(tickets) && OffersSound(offers, tickets, snapshots) && forall w :: w in waits ==> w.quantity > 0
      modifies this`tickets
      ensures TicketsSound(tickets) && OffersSound(offers, tickets, snapshots)
      ensures Grown(old(tickets), tickets) && Opened(tickets, old(|tickets|), now)
      ensures forall s, p :: Demanded(tickets, s, p) == Demanded(old(tickets), s, p) + Total(waits, WaitOf(s, p))
    {
      hide TicketsSound, OffersSound, Demanded, Total;
      NoWaits();
      for i := 0 to |waits|
        invariant TicketsSound(tickets) && Grown(old(tickets), tickets) && Opened(tickets, old(|tickets|), now)
        invariant forall s, p :: Demanded(tickets, s, p) == Demanded(old(tickets), s, p) + Total(waits[..i], WaitOf(s, p))
      {
        var w := waits[i];
        NextWaits(waits, i);
        var active := FindWaiting(w.store, w.product);
        match active {
          case Some(t) =>
            WaitGrown(tickets, t, w.quantity);
            var row := tickets[t];
            tickets := tickets[t := row.(original := row.original + w.quantity, remaining := row.remaining + w.quantity)];
          case None =>
            var row := TicketRow(w.store, w.product, w.quantity, w.quantity, 0, now, Waiting);
            WaitOpened(tickets, row);
            tickets := tickets + [row];
        }
      }
      assert waits[..|waits|] == waits;
      TicketsReplaced(offers, old(tickets), tickets, snapshots);
    }

    // -------------------------------------------------------------------------------------------
    // The final run: shipments
    // -------------------------------------------------------------------------------------------

    /** The stores that have something to ship, each once. */
    method RidingStores(session: Id, input: RunInput) returns (stores: seq<Id>)
      ensures Distinct(stores)
      ensures forall s :: s in stores <==> exists r :: r in reservations && r.store == s && Rides(r, lines, runs.Keys, session, input)
    {
      hide Rides;
      stores := [];
      for i := 0 to |reservations|
        invariant Distinct(stores)
        invariant forall s :: s in stores <==> exists r :: r in reservations[..i] && r.store == s && Rides(r, lines, runs.Keys, session, input)
      {
        var r := reservations[i];
        assert reservations[..i + 1] == reservations[..i] + [r];
        if Rides(r, lines, runs.Keys, session, input) && r.store !in stores { stores := stores + [r.store]; }
      }
      assert reservations[..|reservations|] == reservations;
    }

    /** The products a store has to ship, each once. */
    method RidingProducts(session: Id, input: RunInput, store: Id) returns (products: seq<Id>)
      ensures Distinct(products)
      ensures forall p :: p in products <==>
        exists r :: r in reservations && r.store == store && r.product == p && Rides(r, lines, runs.Keys, session, input)
    {
      hide Rides;
      products := [];
      for i := 0 to |reservations|
        invariant Distinct(products)
        invariant forall p :: p in products <==>
          exists r :: r in reservations[..i] && r.store == store && r.product == p && Rides(r, lines, runs.Keys, session, input)
      {
        var r := reservations[i];
        assert reservations[..i + 1] == reservations[..i] + [r];
        if r.store == store && Rides(r, lines, runs.Keys, session, input) && r.product !in products { products := products + [r.product]; }
      }
      assert reservations[..|reservations|] == reservations;
    }

    /** One shipment line for a store and product: it carries every reservation that rides, and its
    quantity is theirs. */
    method ShipGroup(session: Id, input: RunInput, store: Id, product: Id)
      requires ReservationsSound(reservations, lines, shipments) && ShipmentsSound(reservations, shipments)
      modifies this`reservations, this`shipments
      ensures ReservationsSound(reservations, lines, shipments) && ShipmentsSound(reservations, shipments)
      ensures |shipments| == old(|shipments|) + 1 && shipments[..old(|shipments|)] == old(shipments)
      ensures shipments[old(|shipments|)] == ShipmentRow(session, store, product, shipments[old(|shipments|)].quantity)
      ensures |reservations| == old(|reservations|)
      ensures forall i :: 0 <= i < |reservations| ==>
        reservations[i] == Shipped(old(reservations)[i], Picked(old(reservations)[i], lines, runs.Keys, session, input, store, product), old(|shipments|))
    {
      hide Rides, LinkedTo, ReservationsSound, ShipmentsSound;
      var n := |shipments|;
      var quantity: nat := 0;
      NothingRidesYet(reservations, lines, shipments);
      for i := 0 to |reservations|
        invariant shipments == old(shipments) && |reservations| == old(|reservations|)
        invariant forall k :: 0 <= k < |reservations| ==>
          reservations[k] == if k < i then Shipped(old(reservations)[k], Picked(old(reservations)[k], lines, runs.Keys, session, input, store, product), n)
                             else old(reservations)[k]
        invariant LinkedTo(reservations, n) == quantity
        invariant forall k :: 0 <= k < n ==> LinkedTo(reservations, k) == LinkedTo(old(reservations), k)
      {
        var r := reservations[i];
        if r.store == store && r.product == product && Rides(r, lines, runs.Keys, session, input) {
          RidingIsFree(r, lines, runs.Keys, session, input);
          Linked(reservations, i, n);
          reservations := reservations[i := r.(shipment := Some(n))];
          quantity := quantity + r.quantity;
        }
      }
      shipments := shipments + [ShipmentRow(session, store, product, quantity)];
      GroupIsSound(old(reservations), reservations, lines, old(shipments), shipments);
      hide *;
      assert shipments[..n] == old(shipments);
    }

    /** Ordinary orders ship: every reservation that may ride gets exactly one line, one line per store
    and product. */
    method MaterializeOutboundRequests(session: Id, input: RunInput)
      requires ReservationsSound(reservations, lines, shipments) && ShipmentsSound(reservations, shipments)
      modifies this`reservations, this`shipments
      ensures ReservationsSound(reservations, lines, shipments) && ShipmentsSound(reservations, shipments)
      ensures Materialized(old(View()), View(), session, input)
    {
      hide ReservationsSound, ShipmentsSound, Rides;
      ghost var start := View();
      var stores := RidingStores(session, input);
      for a := 0 to |stores|
        invariant ReservationsSound(reservations, lines, shipments) && ShipmentsSound(reservations, shipments)
        invariant Shipping(start, View(), session, input, stores, a, [], 0)
      {
        var products := RidingProducts(session, input, stores[a]);
        StoreStarts(start, View(), session, input, stores, a, products);
        for b := 0 to |products|
          invariant ReservationsSound(reservations, lines, shipments) && ShipmentsSound(reservations, shipments)
          invariant Shipping(start, View(), session, input, stores, a, products, b)
        {
          ghost var before := View();
          ShipGroup(session, input, stores[a], products[b]);
          GroupShipped(start, before, View(), session, input, stores, a, products, b);
        }
        StoreEnds(start, View(), session, input, stores, a, products);
      }
      AllShipped(start, View(), session, input, stores);
    }

    // -------------------------------------------------------------------------------------------
    // The final run
    // -------------------------------------------------------------------------------------------

    /** What a run does once every product is planned; `start` is how it found the tables. */
    method CompleteRun(session: Session, input: RunInput, items: seq<SnapshotItem>, planned: seq<PlannedItem>, now: Instant, ghost start: Db)
      requires Inv(View()) && MergedSound(input.merged)
      requires session.id in start.snapshots && items == start.snapshots[session.id] && View() == AfterExpiry(start, session)
      requires |planned| == |items| && forall k :: 0 <= k < |items| ==> IsPlanned(View(), session.id, input, items[k], planned[k])
      requires items != [] ==> WaitsStand(offers, lines, tickets, session.id)
      requires forall m :: m in input.merged ==> HasProduct(items, m.product)
      modifies this
      ensures Inv(View()) && SameOnHand(balances, old(balances)) && clock == old(clock) && (old(Standing(View())) ==> Standing(View()))
      ensures RunDone(start, View(), session, input, now)
    {
      hide Inv, Stocked, ReservationsSound, ShipmentsSound, TicketsSound, OffersSound, SnapshotsSound, ClaimsSound, MergedSound, RunDone,
           IsPlanned, SameOnHand, AllPlanned, RoomForAll, KeptOnlyFor, Tallied, AllServed, RunLines, Materialized, Grown,
           ProductsDistinct, WaitsStand, KeptFor, AcceptedOffers, ConvertedOffers, AllWaitRemainders, AfterExpiry,
           Total, ItemsDistinct, Demanded, Opened, AreRows, AcceptedStand;
      ghost var mid := View();
      InvParts(mid);
      ExpiryKeepsRest(start, session);
      var accepted := AcceptedOffers(offers, lines, session.id);
      AcceptedAreRows(offers, lines, session.id);
      ConvertedKeepsClaims(offers, lines, tickets, clock, session.id);
      var kept := ConvertHolds(session.id, planned);
      ghost var converted := View();
      ReadyToWrite(mid, converted, session.id, input, items, planned, kept);
      var waits := PersistItems(session.id, input.merged, planned, accepted, kept);
      ghost var served := View();
      ServedKeepsKeys(served.offers, mid.tickets, tickets, snapshots, planned);
      WaitsArePositive(planned);
      PersistWaitRemainders(waits, now);
      ghost var waiting := View();
      RunClaims(mid, converted, waiting, session.id, accepted, planned, input.merged, served.tickets);
      MaterializeOutboundRequests(session.id, input);
      ShippingKeepsStock(waiting, View(), session.id, input);
      runs := runs[session.id := planned];
      InvFrom(View());
      SameOnHandTwice(mid.balances, converted.balances, served.balances);
      RunIsDone(start, mid, converted, served, waiting, View(), session, input, items, planned, waits, now);
    }

    /** The final run of a session: one transaction.  A run that fails leaves everything as it was; a
    completed run is not run again. */
    method FinalizeAllocation(row: Option<SessionRow>, session: Session, input: RunInput, now: Instant) returns (r: JobResult)
      requires Inv(View()) && MergedSound(input.merged)
      requires row.Some? ==> row.value.session.id == session.id
      modifies this
      ensures Inv(View()) && SameOnHand(balances, old(balances)) && clock == old(clock) && (old(Standing(View())) ==> Standing(View()))
      ensures r == if row.None? then Failed(SessionMissing) else if session.id in old(runs) then Replayed
                   else ResultOf(RunFailure(old(View()), row.value, session, input))
      ensures r != Done ==> View() == old(View())
      ensures r == Done ==> RunDone(old(View()), View(), session, input, now)
    {
      hide Inv, MergedSound, RunDone, RunFailure, IsPlanned, SameOnHand, AfterExpiry, WaitsStand, Expiring, Released, LapsedOffers, TimedOut,
           AllocatorInput, A.Valid, HasProduct, Stocked, OffersSound, TicketsSound, ReservationsSound, ShipmentsSound, SnapshotsSound, ClaimsSound,
           Matches, AcceptedStand;
      ghost var start := View();
      SameOnHandItself(balances);
      if row.None? { return Failed(SessionMissing); }
      if session.id in runs { return Replayed; }
      if !Matches(row.value, session) {
        NoMatch(start, row.value, session, input);
        return Failed(SessionChanged);
      }
      if session.id !in snapshots {
        NoSnapshot(start, row.value, session, input);
        return Failed(SnapshotMissing);
      }
      var savedBalances, savedOffers, savedTickets := balances, offers, tickets;
      LapsedTickets(start, session);
      var lapsed := ExpireOffers(session);
      CancelTimedOut(lapsed);
      ghost var mid := View();
      MidIs(start, mid, session, lapsed);
      var items := snapshots[session.id];
      var planned, failure := AllocateItems(session.id, input, items);
      var unmatched := exists m :: m in input.merged && !HasProduct(items, m.product);
      FailureIs(start, row.value, session, input, mid, items, failure == Some(WaitChanged), failure == Some(AllocatorRefused), unmatched);
      if failure.None? && unmatched { failure := Some(DemandWithoutSnapshot); }
      if failure.Some? {
        balances, offers, tickets := savedBalances, savedOffers, savedTickets;
        return Failed(failure.value);
      }
      CompleteRun(session, input, items, planned, now, start);
      SameOnHandTwice(start.balances, mid.balances, balances);
      r := Done;
    }

    // -------------------------------------------------------------------------------------------
    // Shortages
    // -------------------------------------------------------------------------------------------

    /** A store declares that goods of result line `l` did not arrive.  Every accepted offer keeps its
    wait unless it is for the wait that is folded away. */
    method DeclareShortage(l: nat, shortage: nat, now: Instant) returns (r: Shortage)
      requires Inv(View()) && l < |lines| && shortage > 0
      modifies this`tickets
      ensures Inv(View()) && HasSource(lines[l], old(tickets)) && r == old(PlanShortage(tickets, lines[l], shortage))
      ensures tickets == if r.Uncovered? then old(tickets) else old(Declared(tickets, lines[l], shortage, now))
      ensures old(Standing(View())) ==> (Standing(View()) <==> !(r.Merge? && AwaitsRun(r.active, offers, lines)))
    {
      hide Inv, AcceptedStand, ActiveWait, TicketsSound;
      var line := lines[l];
      assert line in lines && TicketsSound(tickets) && HasSource(line, tickets) by { LineHasSource(View(), line); }
      var source := None;
      if line.source.ForOffer? && tickets[line.source.ticket].status != Cancelled { source := Some(line.source.ticket); }
      var active := FindWaiting(line.store, line.product);
      if source.Some? && tickets[source.value].fulfilled < shortage { return Uncovered; }
      DeclaredKeepsInv(View(), line, shortage, now);
      if Standing(View()) { DeclaredKeepsStanding(offers, lines, tickets, line, shortage, now); }
      match (source, active) {
        case (Some(s), _) =>
          var row, more, queuedAt := tickets[s], 0, tickets[s].queuedAt;
          r := Restore(s);
          if active.Some? && active.value != s {
            var other := tickets[active.value];
            r, more, queuedAt := Merge(s, active.value), other.remaining, Earlier(queuedAt, other.queuedAt);
            tickets := tickets[active.value := other.(status := Folded)];
          }
          tickets := tickets[s := Reopened(row, shortage, more, queuedAt)];
        case (None, Some(a)) =>
          r := Extend(a);
          var row := tickets[a];
          tickets := tickets[a := row.(original := row.original + shortage, remaining := row.remaining + shortage)];
        case (None, None) =>
          r := Open;
          tickets := tickets + [TicketRow(line.store, line.product, shortage, shortage, 0, now, Waiting)];
      }
    }

    /** Part of a declared shortage did arrive after all.  No accepted offer loses its wait. */
    method CorrectShortage(l: nat, quantity: nat, gone: bool) returns (r: Correction)
      requires Inv(View()) && l < |lines| && quantity > 0
      modifies this`tickets
      ensures Inv(View()) && (old(Standing(View())) ==> Standing(View()))
      ensures r == old(PlanCorrection(tickets, offers, lines, lines[l], quantity, gone))
      ensures r.Corrected? ==> r.ticket < |old(tickets)| && quantity <= old(tickets)[r.ticket].remaining <= old(tickets)[r.ticket].original
      ensures tickets == if r.Corrected? then old(tickets)[r.ticket := CorrectedRow(old(tickets)[r.ticket], lines[l], quantity)] else old(tickets)
    {
      hide Inv, AcceptedStand, ActiveWait, TicketsSound, Live;
      var line := lines[l];
      assert TicketsSound(tickets) by { InvParts(View()); }
      if gone { return AlreadyGone; }
      var active := FindWaiting(line.store, line.product);
      if active.None? { return NotQueued; }
      var row := tickets[active.value];
      if row.remaining < quantity || (line.source.ForOffer? && active.value != line.source.ticket) { return NotQueued; }
      if exists o :: o in offers && o.ticket == active.value && Live(o, lines) { return OfferIsLive; }
      CorrectionKeepsInv(View(), line, quantity, active.value);
      r := Corrected(active.value);
      var remaining := row.remaining - quantity;
      var status := if remaining == 0 then Fulfilled else Waiting;
      if line.source.ForOffer? {
        tickets := tickets[active.value := row.(remaining := remaining, fulfilled := row.fulfilled + quantity, status := status)];
      } else if row.original == quantity {
        tickets := tickets[active.value := row.(status := Folded)];
      } else {
        tickets := tickets[active.value := row.(original := row.original - quantity, remaining := remaining, status := status)];
      }
    }

    /** The tickets that wait, as the planner sees them. */
    method LoadTickets() returns (rows: seq<P.Ticket>)
      ensures rows == WaitingTickets(View(), |tickets|)
    {
      rows := [];
      for n := 0 to |tickets|
        invariant rows == WaitingTickets(View(), n)
      {
        var t, owed := tickets[n], Owed(reservations, lines, n);
        if t.status == Waiting && t.remaining > 0 {
          rows := rows + [P.Ticket(n, t.store, t.product, t.remaining + owed, owed, t.queuedAt, P.Active)];
        }
      }
    }
  }
}
