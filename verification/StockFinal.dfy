/** What a final run has done when it completes, and why one fails. */
module StockFinal {
  import opened Common
  import opened Quantities
  import opened Ordering
  import opened StockTables
  import opened StockSnapshot
  import opened StockRun
  import opened StockPersist
  import opened StockOffers
  import opened StockWriting
  import opened StockShipping
  import A = Allocation

  /** The errors of the jobs. */
  datatype Failure =
    | SessionMissing | SessionChanged | SnapshotMissing | PlanRefused
    | WaitChanged | AllocatorRefused | DemandWithoutSnapshot

  /** The tables once a session's unanswered offers lapsed and the waits they end are cancelled. */
  function AfterExpiry(db: Db, session: Session): Db {
    var lapsed, offers := Expiring(db.offers, session), LapsedOffers(db.offers, session);
    db.(balances := Released(db.balances, lapsed), offers := offers, tickets := TimedOut(db.tickets, lapsed, offers, db.lines))
  }

  /** Why a final run of the session in `row` fails, if it does: the first of the checks that do not hold. */
  ghost function RunFailure(db: Db, row: SessionRow, session: Session, input: RunInput): Option<Failure> {
    if !Matches(row, session) then Some(SessionChanged)
    else if session.id !in db.snapshots then Some(SnapshotMissing)
    else
      var mid, items := AfterExpiry(db, session), db.snapshots[session.id];
      if items != [] && !WaitsStand(mid.offers, mid.lines, mid.tickets, session.id) then Some(WaitChanged)
      else if exists item :: item in items && !A.Valid(AllocatorInput(mid, session.id, input, item)) then Some(AllocatorRefused)
      else if exists m :: m in input.merged && !HasProduct(items, m.product) then Some(DemandWithoutSnapshot)
      else None
  }

  /** What a completed run did.  It allocated every product of the snapshot, and so every one asked for, by
  the allocator's rules out of what is there; every accepted offer and every source line of a request has its result line, which
  says what it got; what is granted is reserved, product by product; every hold of the session is used
  or given back; tickets were served what was granted, waits grew
  by what requests did not get; and what may ship rides on exactly one shipment line. */
  ghost predicate RunDone(before: Db, after: Db, session: Session, input: RunInput, now: Instant) {
    session.id in before.snapshots && session.id in after.runs &&
    var mid, items, planned := AfterExpiry(before, session), before.snapshots[session.id], after.runs[session.id];
    && after.runs == before.runs[session.id := planned] && after.snapshots == before.snapshots
    && |planned| == |items| && (forall m :: m in input.merged ==> HasProduct(items, m.product))
    && (forall k :: 0 <= k < |items| ==> IsPlanned(mid, session.id, input, items[k], planned[k]))
    && after.offers == ConvertedOffers(mid.offers, mid.lines, session.id)
    && (forall q :: ActivelyReserved(after.reservations, q) == ActivelyReserved(before.reservations, q) + Total(planned, ItemReserved(q)))
    && (forall o :: o in mid.offers && Owned(o, mid.lines, session.id) ==> IsAllocated(after.lines, o.id))
    && (exists served :: ServedThenGrown(mid.tickets, served, after.tickets, planned)) && Opened(after.tickets, |before.tickets|, now)
    && (forall s, p :: Demanded(after.tickets, s, p) == Demanded(before.tickets, s, p) + Total(planned, ItemOrderWaits(s, p)))
    && after.lines == before.lines + RunLines(session.id, planned, AcceptedOffers(mid.offers, mid.lines, session.id), input.merged)
    && (exists written :: WrittenThenShipped(before, written, after, session.id, input, planned))
  }

  ghost predicate ServedThenGrown(before: seq<TicketRow>, served: seq<TicketRow>, after: seq<TicketRow>, planned: seq<PlannedItem>) {
    AllServed(before, served, planned) && Grown(served, after)
  }

  ghost predicate WrittenThenShipped(before: Db, written: Db, after: Db, session: Id, input: RunInput, planned: seq<PlannedItem>) {
    && Tallied(before, written, session, planned) && written.shipments == before.shipments && written.runs == before.runs
    && Materialized(written, after, session, input) && after.lines == written.lines
  }

  lemma SameOnHandItself(a: Balances)
    ensures SameOnHand(a, a)
  {
  }

  lemma InvParts(db: Db)
    requires Inv(db)
    ensures Stocked(db.balances, db.offers, db.reservations, NOTHING)
    ensures OffersSound(db.offers, db.tickets, db.snapshots) && TicketsSound(db.tickets)
    ensures ReservationsSound(db.reservations, db.lines, db.shipments) && ShipmentsSound(db.reservations, db.shipments)
    ensures SnapshotsSound(db.snapshots) && forall s :: s in db.snapshots ==> ItemsDistinct(db.snapshots[s])
    ensures ClaimsSound(db.offers, db.lines, db.tickets, db.clock)
  {
  }

  lemma InvFrom(db: Db)
    requires Stocked(db.balances, db.offers, db.reservations, NOTHING)
    requires OffersSound(db.offers, db.tickets, db.snapshots) && TicketsSound(db.tickets)
    requires ReservationsSound(db.reservations, db.lines, db.shipments) && ShipmentsSound(db.reservations, db.shipments)
    requires SnapshotsSound(db.snapshots) && ClaimsSound(db.offers, db.lines, db.tickets, db.clock)
    ensures Inv(db)
  {
  }

  lemma ExpiryKeepsRest(db: Db, session: Session)
    ensures var mid := AfterExpiry(db, session);
      mid == db.(balances := mid.balances, offers := mid.offers, tickets := mid.tickets)
  {
  }

  lemma NoSnapshot(db: Db, row: SessionRow, session: Session, input: RunInput)
    requires Matches(row, session) && session.id !in db.snapshots
    ensures RunFailure(db, row, session, input) == Some(SnapshotMissing)
  {
  }

  lemma NoMatch(db: Db, row: SessionRow, session: Session, input: RunInput)
    requires !Matches(row, session)
    ensures RunFailure(db, row, session, input) == Some(SessionChanged)
  {
  }

  lemma LapsedTickets(db: Db, session: Session)
    requires Inv(db)
    ensures forall o :: o in Expiring(db.offers, session) ==> o.ticket < |db.tickets|
  {
    forall o | o in Expiring(db.offers, session) ensures o.ticket < |db.tickets| {
      FilterCounts(db.offers, (o: OfferRow) => Expirable(o, session), o);
      assert o in db.offers;
    }
  }

  lemma MidIs(start: Db, mid: Db, session: Session, lapsed: seq<OfferRow>)
    requires lapsed == Expiring(start.offers, session)
    requires mid == start.(balances := Released(start.balances, lapsed), offers := LapsedOffers(start.offers, session),
                           tickets := TimedOut(start.tickets, lapsed, LapsedOffers(start.offers, session), start.lines))
    ensures mid == AfterExpiry(start, session)
  {
  }

  /** The outcome of checking the waits, planning every product and matching every demand. */
  lemma FailureIs(start: Db, row: SessionRow, session: Session, input: RunInput, mid: Db, items: seq<SnapshotItem>,
                  changed: bool, refused: bool, unmatched: bool)
    requires Matches(row, session) && session.id in start.snapshots && mid == AfterExpiry(start, session) && items == start.snapshots[session.id]
    requires changed <==> items != [] && !WaitsStand(mid.offers, mid.lines, mid.tickets, session.id)
    requires !changed ==> (refused <==> exists item :: item in items && !A.Valid(AllocatorInput(mid, session.id, input, item)))
    requires unmatched <==> exists m :: m in input.merged && !HasProduct(items, m.product)
    ensures RunFailure(start, row, session, input)
         == if changed then Some(WaitChanged) else if refused then Some(AllocatorRefused)
            else if unmatched then Some(DemandWithoutSnapshot) else None
  {
    hide AfterExpiry, A.Valid, AllocatorInput, HasProduct, WaitsStand, Matches;
  }

  lemma PlannedAreValid(db: Db, session: Id, input: RunInput, items: seq<SnapshotItem>, planned: seq<PlannedItem>)
    requires |planned| == |items| && forall k :: 0 <= k < |items| ==> IsPlanned(db, session, input, items[k], planned[k])
    ensures forall item :: item in items ==> A.Valid(AllocatorInput(db, session, input, item))
  {
    hide AllocatorInput, A.Valid, A.IsOutcome;
    forall item | item in items ensures A.Valid(AllocatorInput(db, session, input, item)) {
      var k :| 0 <= k < |items| && items[k] == item;
      assert IsPlanned(db, session, input, items[k], planned[k]);
    }
  }

  lemma ProductsOfItems(db: Db, session: Id, input: RunInput, items: seq<SnapshotItem>, planned: seq<PlannedItem>)
    requires |planned| == |items| && ItemsDistinct(items)
    requires forall k :: 0 <= k < |items| ==> IsPlanned(db, session, input, items[k], planned[k])
    ensures ProductsDistinct(planned)
  {
    hide AllocatorInput, A.Valid, A.IsOutcome;
    forall i, j | 0 <= i < j < |planned| ensures planned[i].product != planned[j].product {
      assert planned[i].product == items[i].product && planned[j].product == items[j].product;
    }
  }

  lemma PlansAreReady(db: Db, session: Id, input: RunInput, items: seq<SnapshotItem>, planned: seq<PlannedItem>)
    requires OffersSound(db.offers, db.tickets, db.snapshots) && |planned| == |items|
    requires items != [] ==> WaitsStand(db.offers, db.lines, db.tickets, session)
    requires forall k :: 0 <= k < |items| ==> IsPlanned(db, session, input, items[k], planned[k])
    ensures AllPlanned(planned, db.tickets, AcceptedOffers(db.offers, db.lines, session), input.merged)
  {
    hide AllocatorInput, A.Valid, A.IsOutcome, Feasible, WaitsHaveOffers, WaitsStand, OffersSound, AcceptedOffers;
    var accepted := AcceptedOffers(db.offers, db.lines, session);
    forall p | p in planned ensures Ready(p, db.tickets, accepted, input.merged) {
      var k :| 0 <= k < |planned| && planned[k] == p;
      assert IsPlanned(db, session, input, items[k], p);
      PlanIsFeasible(db, session, input, items[k], p);
      PlanHasOffers(db, session, input, items[k], p);
      forall i | 0 <= i < |p.out.remainders| && !p.out.remainders[i].demand.source.ConfirmedWait? ensures IsMergedOf(input.merged, p, i) {
        PlanHasMerged(db, session, input, items[k], p, i);
      }
    }
  }

  /** Once the holds are converted, what a product allocates fits, and covers what was kept for it. */
  lemma RoomAfterConversion(mid: Db, now: Db, session: Id, input: RunInput, item: SnapshotItem, planned: seq<PlannedItem>,
                            p: PlannedItem, kept: map<Id, nat>)
    requires OffersSound(mid.offers, mid.tickets, mid.snapshots) && ProductsDistinct(planned) && AllFeasible(mid.tickets, planned)
    requires p in planned && IsPlanned(mid, session, input, item, p)
    requires Stocked(mid.balances, mid.offers, mid.reservations, NOTHING) && Stocked(now.balances, now.offers, now.reservations, kept)
    requires now.offers == ConvertedOffers(mid.offers, mid.lines, session) && now.reservations == mid.reservations
    requires SameOnHand(now.balances, mid.balances)
    requires AtKey(kept, p.product) == KeptFor(planned, mid.offers, mid.lines, session, p.product)
    ensures Room(now.balances, kept, p)
  {
    hide HeldByAccepted, Held, ActivelyReserved, KeptFor, ConvertedOffers, OffersSound, ProductsDistinct, AllFeasible, AllocatorInput, A.IsOutcome;
    assert Covered(mid.balances, mid.offers, mid.reservations, NOTHING, p.product);
    assert Covered(now.balances, now.offers, now.reservations, kept, p.product);
    ConvertedHolds(mid.offers, mid.lines, session, p.product);
    GrantFits(mid, session, input, item, p);
    KeptFits(mid, session, planned, p.product);
    GrantedIsSum(p);
  }

  lemma ReadyToWrite(mid: Db, now: Db, session: Id, input: RunInput, items: seq<SnapshotItem>, planned: seq<PlannedItem>, kept: map<Id, nat>)
    requires OffersSound(mid.offers, mid.tickets, mid.snapshots) && ItemsDistinct(items)
    requires |planned| == |items| && forall k :: 0 <= k < |items| ==> IsPlanned(mid, session, input, items[k], planned[k])
    requires items != [] ==> WaitsStand(mid.offers, mid.lines, mid.tickets, session)
    requires Stocked(mid.balances, mid.offers, mid.reservations, NOTHING) && Stocked(now.balances, now.offers, now.reservations, kept)
    requires now.offers == ConvertedOffers(mid.offers, mid.lines, session) && now.reservations == mid.reservations
    requires SameOnHand(now.balances, mid.balances)
    requires forall p :: AtKey(kept, p) == KeptFor(planned, mid.offers, mid.lines, session, p)
    ensures RoomForAll(now.balances, kept, planned) && KeptOnlyFor(kept, planned) && ProductsDistinct(planned)
    ensures AllPlanned(planned, mid.tickets, AcceptedOffers(mid.offers, mid.lines, session), input.merged)
  {
    hide Stocked, OffersSound, IsPlanned, KeptFor, AcceptedOffers, ConvertedOffers, SameOnHand, ProductsDistinct, ItemsDistinct, WaitsStand, Room,
         A.Valid, A.IsOutcome, Feasible, WaitsHaveOffers, RequestsHaveMerged;
    ProductsOfItems(mid, session, input, items, planned);
    PlansAreReady(mid, session, input, items, planned);
    assert AllFeasible(mid.tickets, planned) by {
      forall p | p in planned ensures Feasible(mid.tickets, p.product, p.out.remainders) {
        assert Ready(p, mid.tickets, AcceptedOffers(mid.offers, mid.lines, session), input.merged);
      }
    }
    forall p | p in planned ensures Room(now.balances, kept, p) {
      var k :| 0 <= k < |planned| && planned[k] == p;
      RoomAfterConversion(mid, now, session, input, items[k], planned, p, kept);
    }
    forall q | (forall p :: p in planned ==> p.product != q) ensures AtKey(kept, q) == 0 {
      KeptFits(mid, session, planned, q);
    }
  }

  lemma ServedKeepsKeys(offers: seq<OfferRow>, before: seq<TicketRow>, after: seq<TicketRow>, snapshots: map<Id, seq<SnapshotItem>>,
                        planned: seq<PlannedItem>)
    requires OffersSound(offers, before, snapshots) && AllServed(before, after, planned)
    ensures OffersSound(offers, after, snapshots) && |after| == |before|
    ensures forall s, p :: Demanded(after, s, p) == Demanded(before, s, p)
  {
    hide OffersSound, PlanGrant;
    forall t | 0 <= t < |before|
      ensures after[t].store == before[t].store && after[t].product == before[t].product && after[t].original == before[t].original
    {
      assert IsServed(before[t], after[t], PlanGrant(planned, t));
    }
    TicketsReplaced(offers, before, after, snapshots);
    forall s, p ensures Demanded(after, s, p) == Demanded(before, s, p) {
      TotalSame(after, DemandOf(s, p), before, DemandOf(s, p));
    }
  }

  lemma WaitsArePositive(planned: seq<PlannedItem>)
    ensures forall w :: w in AllWaitRemainders(planned) ==> w.quantity > 0
  {
    AllWaitRemaindersTotal(planned, 0, 0);
  }

  lemma ShippingKeepsStock(before: Db, after: Db, session: Id, input: RunInput)
    requires Materialized(before, after, session, input) && after.balances == before.balances && after.offers == before.offers
    requires Stocked(before.balances, before.offers, before.reservations, NOTHING)
    ensures Stocked(after.balances, after.offers, after.reservations, NOTHING)
  {
    ShippingKeepsReserved(before, after, session, input);
    hide ActivelyReserved, Held, Materialized;
    forall p ensures Covered(after.balances, after.offers, after.reservations, NOTHING, p) {
      assert Covered(before.balances, before.offers, before.reservations, NOTHING, p);
    }
  }

  /** Cancelling waits does not change what stores ever waited for. */
  lemma TimeoutKeepsDemand(tickets: seq<TicketRow>, lapsed: seq<OfferRow>, offers: seq<OfferRow>, lines: seq<LineRow>)
    ensures forall s, p :: Demanded(TimedOut(tickets, lapsed, offers, lines), s, p) == Demanded(tickets, s, p)
  {
    hide TimesOut;
    var after := TimedOut(tickets, lapsed, offers, lines);
    forall s, p ensures Demanded(after, s, p) == Demanded(tickets, s, p) {
      TotalSame(after, DemandOf(s, p), tickets, DemandOf(s, p));
    }
  }

  /** Every demand has its remainder. */
  lemma DemandIsAnswered(input: A.Input, out: A.Allocation, d: A.Demand)
    requires A.Valid(input) && A.IsOutcome(input, out) && d in input.demands
    ensures exists x :: x in out.remainders && x.demand == d
  {
    hide A.Recorded, A.EndsAt, A.Valid;
    SortPermutes(input.demands, A.DemandOrder);
    SameElements(A.InServingOrder(input.demands), input.demands);
    var i :| 0 <= i < |out.remainders| && out.remainders[i].demand == d;
    assert out.remainders[i] in out.remainders;
  }

  /** An accepted offer of a planned product has its result line. */
  lemma {:induction false} AcceptedIsAllocated(mid: Db, lines: seq<LineRow>, session: Id, input: RunInput, items: seq<SnapshotItem>,
                            planned: seq<PlannedItem>, o: OfferRow, k: nat, from: nat)
    requires OffersSound(mid.offers, mid.tickets, mid.snapshots)
    requires k < |planned| == |items| && IsPlanned(mid, session, input, items[k], planned[k]) && from <= |lines|
    requires o in mid.offers && Owned(o, mid.lines, session) && items[k].product == o.product
    requires RunLines(session, planned, AcceptedOffers(mid.offers, mid.lines, session), input.merged) <= lines[from..]
    ensures IsAllocated(lines, o.id)
  {
    hide RunLines, A.IsOutcome, A.Valid, RequestDemands, WaitDemands, Owned, IsAllocated, Capacity, AllocatableSnapshotQuantity, OfferSound, Listed,
         AcceptedOffers, OfferFor;
    var p := planned[k];
    var d := A.Demand(input.waitId(o.id), o.store, o.accepted, A.P0A, A.ConfirmedWait(o.ticket));
    WaitDemandsMembers(mid.offers, mid.lines, session, p.product, input.waitId);
    DemandIsAnswered(p.input, p.out, d);
    var x :| x in p.out.remainders && x.demand == d;
    OwnedIsFound(mid.offers, mid.lines, session, o);
    var accepted := AcceptedOffers(mid.offers, mid.lines, session);
    var l := WaitLine(session, p.product, x, o);
    assert IsWaitLine(l, session, p.product, x, accepted);
    RunLinesAre(session, planned, accepted, input.merged);
    assert l in lines[from..];
    IsAllocatedBy(lines, l, o.id);
  }

  lemma IsAllocatedBy(lines: seq<LineRow>, l: LineRow, offer: Id)
    requires l in lines && l.source.ForOffer? && l.source.offer == offer
    ensures IsAllocated(lines, offer)
  {
  }

  /** A ticket has at most one offer of a session. */
  lemma OwnedIsFound(offers: seq<OfferRow>, lines: seq<LineRow>, session: Id, o: OfferRow)
    requires forall i, j :: 0 <= i < j < |offers| ==> offers[i].session != offers[j].session || offers[i].ticket != offers[j].ticket
    requires o in offers && Owned(o, lines, session)
    ensures OfferFor(AcceptedOffers(offers, lines, session), o.ticket) == Some(o)
  {
    hide IsAllocated, OfferFor;
    var owned := (x: OfferRow) => Owned(x, lines, session);
    FilterCounts(offers, owned, o);
    var found := OfferFor(AcceptedOffers(offers, lines, session), o.ticket);
    assert found.Some?;
    FilterCounts(offers, owned, found.value);
    var i :| 0 <= i < |offers| && offers[i] == o;
    var j :| 0 <= j < |offers| && offers[j] == found.value;
  }

  lemma RunIsDone(start: Db, mid: Db, converted: Db, served: Db, waiting: Db, after: Db, session: Session, input: RunInput,
                  items: seq<SnapshotItem>, planned: seq<PlannedItem>, waits: seq<WaitRemainder>, now: Instant)
    requires session.id in start.snapshots && items == start.snapshots[session.id] && mid == AfterExpiry(start, session)
    requires forall m :: m in input.merged ==> HasProduct(items, m.product)
    requires OffersSound(mid.offers, mid.tickets, mid.snapshots) && mid.snapshots == start.snapshots
    requires |planned| == |items| && forall k :: 0 <= k < |items| ==> IsPlanned(mid, session.id, input, items[k], planned[k])
    requires AllServed(mid.tickets, served.tickets, planned) && |served.tickets| == |mid.tickets|
    requires served.lines == start.lines + RunLines(session.id, planned, AcceptedOffers(mid.offers, mid.lines, session.id), input.merged)
    requires converted.lines == start.lines && converted.reservations == start.reservations && Tallied(converted, served, session.id, planned)
    requires served.shipments == start.shipments && served.runs == start.runs
    requires waits == AllWaitRemainders(planned) && Grown(served.tickets, waiting.tickets) && Opened(waiting.tickets, |served.tickets|, now)
    requires forall s, p :: Demanded(served.tickets, s, p) == Demanded(mid.tickets, s, p)
    requires forall s, p :: Demanded(waiting.tickets, s, p) == Demanded(served.tickets, s, p) + Total(waits, WaitOf(s, p))
    requires waiting == served.(tickets := waiting.tickets)
    requires Materialized(waiting, after.(runs := start.runs), session.id, input) && after.lines == waiting.lines
    requires after.tickets == waiting.tickets && after.offers == ConvertedOffers(mid.offers, mid.lines, session.id)
    requires after.snapshots == start.snapshots && after.runs == start.runs[session.id := planned]
    ensures RunDone(start, after, session, input, now)
  {
    hide IsPlanned, AllServed, RunLines, Grown, Demanded, Materialized, OffersSound, ConvertedOffers, IsAllocated, Owned,
         AcceptedOffers, Total, AllWaitRemainders, Released, LapsedOffers, TimedOut, Expiring;
    TimeoutKeepsDemand(start.tickets, Expiring(start.offers, session), mid.offers, start.lines);
    forall s, p ensures Demanded(after.tickets, s, p) == Demanded(start.tickets, s, p) + Total(planned, ItemOrderWaits(s, p)) {
      AllWaitRemaindersTotal(planned, s, p);
    }
    forall o | o in mid.offers && Owned(o, mid.lines, session.id) ensures IsAllocated(after.lines, o.id) {
      assert HasProduct(items, o.product) by { OwnedIsListed(mid, session.id, o); }
      var item :| item in items && item.product == o.product;
      var k :| 0 <= k < |items| && items[k] == item;
      assert served.lines[|start.lines|..] == RunLines(session.id, planned, AcceptedOffers(mid.offers, mid.lines, session.id), input.merged);
      AcceptedIsAllocated(mid, served.lines, session.id, input, items, planned, o, k, |start.lines|);
    }
    assert ServedThenGrown(mid.tickets, served.tickets, after.tickets, planned);
    SameShipping(waiting, served, after, start.runs, session.id, input);
    ShippingKeepsReserved(served, after, session.id, input);
    assert WrittenThenShipped(start, served, after, session.id, input, planned);
  }

  lemma OwnedIsListed(db: Db, session: Id, o: OfferRow)
    requires OffersSound(db.offers, db.tickets, db.snapshots) && o in db.offers && Owned(o, db.lines, session)
    ensures session in db.snapshots && HasProduct(db.snapshots[session], o.product)
  {
    hide IsAllocated;
  }

  lemma ShippingKeepsReserved(before: Db, after: Db, session: Id, input: RunInput)
    requires Materialized(before, after, session, input)
    ensures forall q :: ActivelyReserved(after.reservations, q) == ActivelyReserved(before.reservations, q)
  {
    hide ActivelyReserved, Rides;
    SameReserved(before.reservations, after.reservations);
  }

  /** Shipping does not look at tickets or at the run being recorded. */
  lemma SameShipping(waiting: Db, served: Db, after: Db, runs: map<Id, seq<PlannedItem>>, session: Id, input: RunInput)
    requires waiting == served.(tickets := waiting.tickets) && Materialized(waiting, after.(runs := runs), session, input)
    ensures Materialized(served, after, session, input)
  {
    hide Rides;
    forall i | 0 <= i < |served.reservations| && Rides(served.reservations[i], served.lines, served.runs.Keys, session, input)
      ensures OnNewLine(served, after, i)
    {
      assert OnNewLine(waiting, after.(runs := runs), i);
    }
  }
}
