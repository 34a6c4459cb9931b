/** What a completed run did, told by the rows it found, the requests it was given and the rows it left. */
module StockMeaning {
  import opened Common
  import opened Quantities
  import opened Ordering
  import opened StockTables
  import opened StockSnapshot
  import opened StockOffers
  import opened StockRun
  import opened StockPersist
  import opened StockWriting
  import opened StockShipping
  import opened StockFinal
  import A = Allocation
  import AP = AllocationProperties
  import D = DemandSplit

  // ---------------------------------------------------------------------------------------------
  // What is asked for
  // ---------------------------------------------------------------------------------------------

  /** The remainders of a plan answer its demands, each once. */
  lemma AnswersAreDistinct(input: A.Input, out: A.Allocation)
    requires A.Valid(input) && A.IsOutcome(input, out)
    ensures forall x :: x in out.remainders ==> x.demand in input.demands && x.granted + x.remaining == x.demand.requested
    ensures forall i, j :: 0 <= i < j < |out.remainders| ==> out.remainders[i].demand.id != out.remainders[j].demand.id
  {
    AP.RemaindersAre(input, out);
    A.SortedDemands(input);
    hide A.IsOutcome, A.Valid, A.InServingOrder;
    var ds := A.InServingOrder(input.demands);
    forall x | x in out.remainders ensures x.demand in input.demands && x.granted + x.remaining == x.demand.requested {
      var i :| 0 <= i < |out.remainders| && out.remainders[i] == x;
      assert ds[i] in ds;
    }
  }

  /** Every merged demand of a planned product is answered once, with its store, its priority and the sum
  of its lines. */
  lemma RequestsAreAnswered(db: Db, session: Id, input: RunInput, item: SnapshotItem, p: PlannedItem)
    requires IsPlanned(db, session, input, item, p)
    ensures forall m :: m in input.merged && m.product == p.product ==> exists x ::
      && x in p.out.remainders && x.demand.id == m.id && x.demand.store == m.store && x.demand.priority == m.priority
      && x.demand.source == A.OrderRequest && x.granted + x.remaining == Sum(D.LineQuantities(m.lines))
    ensures forall i, j :: 0 <= i < j < |p.out.remainders| ==> p.out.remainders[i].demand.id != p.out.remainders[j].demand.id
  {
    hide A.IsOutcome, A.Valid, RequestDemands, WaitDemands, Capacity, AllocatableSnapshotQuantity, Sum, D.LineQuantities, IsAllocated;
    AnswersAreDistinct(p.input, p.out);
    RequestDemandsMembers(input.merged, p.product);
    forall m | m in input.merged && m.product == p.product
      ensures exists x ::
        && x in p.out.remainders && x.demand.id == m.id && x.demand.store == m.store && x.demand.priority == m.priority
        && x.demand.source == A.OrderRequest && x.granted + x.remaining == Sum(D.LineQuantities(m.lines))
    {
      DemandIsAnswered(p.input, p.out, A.Demand(m.id, m.store, Sum(D.LineQuantities(m.lines)), m.priority, A.OrderRequest));
    }
  }

  /** A plan answers no other request. */
  lemma AnswersAreRequests(db: Db, session: Id, input: RunInput, item: SnapshotItem, p: PlannedItem)
    requires IsPlanned(db, session, input, item, p)
    ensures forall x :: x in p.out.remainders && !x.demand.source.ConfirmedWait? ==> exists m ::
      && m in input.merged && m.product == p.product
      && x.demand.id == m.id && x.demand.store == m.store && x.demand.priority == m.priority
      && x.granted + x.remaining == Sum(D.LineQuantities(m.lines))
  {
    hide A.IsOutcome, A.Valid, RequestDemands, WaitDemands, Capacity, AllocatableSnapshotQuantity, Sum, D.LineQuantities, IsAllocated;
    AnswersAreDistinct(p.input, p.out);
    RequestDemandsMembers(input.merged, p.product);
    WaitDemandsMembers(db.offers, db.lines, session, p.product, input.waitId);
  }

  /** Every accepted offer of the session for a planned product that was not allocated yet is answered
  before all orders, with its store and what was accepted. */
  lemma WaitsAreAnswered(db: Db, session: Id, input: RunInput, item: SnapshotItem, p: PlannedItem)
    requires IsPlanned(db, session, input, item, p)
    ensures forall o :: o in db.offers && o.session == session && o.status == Accepted && !IsAllocated(db.lines, o.id) && o.product == p.product ==>
      exists x ::
        && x in p.out.remainders && x.demand.id == input.waitId(o.id) && x.demand.store == o.store && x.demand.priority == A.P0A
        && x.demand.source == A.ConfirmedWait(o.ticket) && x.granted + x.remaining == o.accepted
  {
    hide A.IsOutcome, A.Valid, RequestDemands, WaitDemands, Capacity, AllocatableSnapshotQuantity, Sum, D.LineQuantities, IsAllocated;
    AnswersAreDistinct(p.input, p.out);
    WaitDemandsMembers(db.offers, db.lines, session, p.product, input.waitId);
    forall o | o in db.offers && Owned(o, db.lines, session) && o.product == p.product
      ensures exists x ::
        && x in p.out.remainders && x.demand.id == input.waitId(o.id) && x.demand.store == o.store && x.demand.priority == A.P0A
        && x.demand.source == A.ConfirmedWait(o.ticket) && x.granted + x.remaining == o.accepted
    {
      DemandIsAnswered(p.input, p.out, A.Demand(input.waitId(o.id), o.store, o.accepted, A.P0A, A.ConfirmedWait(o.ticket)));
    }
  }

  /** A plan answers no other wait. */
  lemma AnswersAreWaits(db: Db, session: Id, input: RunInput, item: SnapshotItem, p: PlannedItem)
    requires IsPlanned(db, session, input, item, p)
    ensures forall x :: x in p.out.remainders && x.demand.source.ConfirmedWait? ==> exists o ::
      && o in db.offers && o.session == session && o.status == Accepted && !IsAllocated(db.lines, o.id) && o.product == p.product
      && x.demand.id == input.waitId(o.id) && x.demand.store == o.store && x.demand.priority == A.P0A
      && x.demand.source == A.ConfirmedWait(o.ticket) && x.granted + x.remaining == o.accepted
  {
    hide A.IsOutcome, A.Valid, RequestDemands, WaitDemands, Capacity, AllocatableSnapshotQuantity, Sum, D.LineQuantities, IsAllocated;
    AnswersAreDistinct(p.input, p.out);
    RequestDemandsMembers(input.merged, p.product);
    WaitDemandsMembers(db.offers, db.lines, session, p.product, input.waitId);
  }

  /** A plan has as much stock as its product's snapshot showed, as far as it is there: free stock, never
  more than the supplier's where there is a cap, and what the session's accepted offers hold.  It goes
  round the ring of stores from the product's cursor. */
  lemma PlanIsGiven(db: Db, session: Id, input: RunInput, item: SnapshotItem, p: PlannedItem)
    requires IsPlanned(db, session, input, item, p)
    ensures var b := BalanceOf(db.balances, item.product);
      var free := Max(0, b.onHand - b.reserved);
      var capped := if item.product in input.caps then Min(input.caps[item.product], free) else free;
      var held := Total(db.offers, (o: OfferRow) =>
        if o.session == session && o.status == Accepted && !IsAllocated(db.lines, o.id) && o.product == item.product then o.held else 0);
      p.product == item.product && p.input.stock == Max(0, Min(item.available, capped + held))
    ensures p.input.storeOrder == input.storeOrder
    ensures p.input.startCursor == if item.product in input.cursors then Some(input.cursors[item.product]) else None
  {
    hide A.IsOutcome, A.Valid, RequestDemands, WaitDemands, IsAllocated;
    TotalSame(db.offers, OwnedHold(db.lines, session, item.product), db.offers, (o: OfferRow) =>
      if o.session == session && o.status == Accepted && !IsAllocated(db.lines, o.id) && o.product == item.product then o.held else 0);
  }

  /** Where every plan of a run comes from. */
  lemma PlanOf(before: Db, after: Db, session: Session, input: RunInput, now: Instant, p: PlannedItem) returns (item: SnapshotItem)
    requires RunDone(before, after, session, input, now) && p in after.runs[session.id]
    ensures session.id in before.snapshots && item in before.snapshots[session.id]
    ensures IsPlanned(AfterExpiry(before, session), session.id, input, item, p)
  {
    hide IsPlanned, AfterExpiry, RunLines, AcceptedOffers, Total, Demanded, Owned, WrittenThenShipped, ServedThenGrown, Opened, ConvertedOffers;
    var k :| 0 <= k < |after.runs[session.id]| && after.runs[session.id][k] == p;
    item := before.snapshots[session.id][k];
  }

  /** Two merged demands of a product, `m` of the higher priority: while `n` is granted anything, `m` lacks
  nothing; and while any is, no accepted offer of the product does. */
  lemma RunServesByPriority(before: Db, after: Db, session: Session, input: RunInput, now: Instant, p: PlannedItem,
                            m: MergedDemand, n: MergedDemand, x: A.Remainder, y: A.Remainder)
    requires RunDone(before, after, session, input, now) && p in after.runs[session.id] && MergedSound(input.merged)
    requires m in input.merged && n in input.merged && m.product == n.product == p.product
    requires x in p.out.remainders && x.demand.id == m.id && y in p.out.remainders && y.demand.id == n.id && y.granted > 0
    ensures m.priority == A.P0B && n.priority in {A.P1, A.P2, A.P3} ==> x.remaining == 0
    ensures m.priority == A.P1 && n.priority in {A.P2, A.P3} ==> x.remaining == 0
    ensures m.priority == A.P2 && n.priority == A.P3 ==> x.remaining == 0
    ensures forall w :: w in p.out.remainders && w.demand.source.ConfirmedWait? ==> w.remaining == 0
  {
    var item := PlanOf(before, after, session, input, now, p);
    hide RunDone, A.IsOutcome, A.Valid, AllocatorInput, MergedSound;
    var mid := AfterExpiry(before, session);
    AP.PrioritiesInOrder(p.input, p.out);
    AnswerOfRequest(mid, session.id, input, item, p, m, x);
    AnswerOfRequest(mid, session.id, input, item, p, n, y);
    OrdersAreNotWaits(mid, session.id, input, item, p);
  }

  /** Remainder `i` of a plan, and no other, is the answer to a merged demand. */
  ghost predicate AnswersAlone(p: PlannedItem, i: nat, m: MergedDemand)
    requires i < |p.out.remainders|
  {
    var x := p.out.remainders[i];
    && x.demand.id == m.id && x.demand.store == m.store && x.demand.priority == m.priority && x.demand.source == A.OrderRequest
    && x.granted + x.remaining == Sum(D.LineQuantities(m.lines))
    && forall j :: 0 <= j < |p.out.remainders| && j != i ==> p.out.remainders[j].demand.id != m.id
  }

  lemma RequestIsAnsweredOnce(db: Db, session: Id, input: RunInput, item: SnapshotItem, p: PlannedItem, m: MergedDemand) returns (i: nat)
    requires IsPlanned(db, session, input, item, p) && m in input.merged && m.product == p.product
    ensures i < |p.out.remainders| && AnswersAlone(p, i, m)
  {
    RequestsAreAnswered(db, session, input, item, p);
    hide IsPlanned, Sum, D.LineQuantities;
    var x :| x in p.out.remainders && x.demand.id == m.id && x.demand.store == m.store && x.demand.priority == m.priority
             && x.demand.source == A.OrderRequest && x.granted + x.remaining == Sum(D.LineQuantities(m.lines));
    i :| 0 <= i < |p.out.remainders| && p.out.remainders[i] == x;
  }

  /** The answer with a merged demand's id is the merged demand's. */
  lemma AnswerOfRequest(db: Db, session: Id, input: RunInput, item: SnapshotItem, p: PlannedItem, m: MergedDemand, x: A.Remainder)
    requires IsPlanned(db, session, input, item, p) && m in input.merged && m.product == p.product
    requires x in p.out.remainders && x.demand.id == m.id
    ensures x.demand.store == m.store && x.demand.priority == m.priority && x.demand.source == A.OrderRequest
  {
    var i := RequestIsAnsweredOnce(db, session, input, item, p, m);
    hide IsPlanned, Sum, D.LineQuantities;
    var k :| 0 <= k < |p.out.remainders| && p.out.remainders[k] == x;
    assert k == i;
  }

  lemma OrdersAreNotWaits(db: Db, session: Id, input: RunInput, item: SnapshotItem, p: PlannedItem)
    requires IsPlanned(db, session, input, item, p)
    ensures forall x :: x in p.out.remainders ==> (x.demand.priority == A.P0A <==> x.demand.source.ConfirmedWait?)
  {
    hide A.IsOutcome, AllocatorInput;
    AnswersAreDistinct(p.input, p.out);
  }

  /** Every merged demand of a planned product is answered exactly once. */
  lemma RunAnswersRequest(before: Db, after: Db, session: Session, input: RunInput, now: Instant, p: PlannedItem, m: MergedDemand)
    returns (i: nat)
    requires RunDone(before, after, session, input, now) && p in after.runs[session.id]
    requires m in input.merged && m.product == p.product
    ensures i < |p.out.remainders| && var x := p.out.remainders[i];
      && x.demand.id == m.id && x.demand.store == m.store && x.demand.priority == m.priority && x.demand.source == A.OrderRequest
      && x.granted + x.remaining == Sum(D.LineQuantities(m.lines))
      && forall j :: 0 <= j < |p.out.remainders| && j != i ==> p.out.remainders[j].demand.id != m.id
  {
    var item := PlanOf(before, after, session, input, now, p);
    hide RunDone, IsPlanned, Sum, D.LineQuantities;
    i := RequestIsAnsweredOnce(AfterExpiry(before, session), session.id, input, item, p, m);
  }

  /** What is answered beside the waits is a merged demand. */
  lemma RunAnswersOnlyRequests(before: Db, after: Db, session: Session, input: RunInput, now: Instant, p: PlannedItem, x: A.Remainder)
    requires RunDone(before, after, session, input, now) && p in after.runs[session.id]
    requires x in p.out.remainders && !x.demand.source.ConfirmedWait?
    ensures exists m ::
      && m in input.merged && m.product == p.product
      && x.demand.id == m.id && x.demand.store == m.store && x.demand.priority == m.priority
      && x.granted + x.remaining == Sum(D.LineQuantities(m.lines))
  {
    var item := PlanOf(before, after, session, input, now, p);
    hide RunDone, IsPlanned;
    AnswersAreRequests(AfterExpiry(before, session), session.id, input, item, p);
  }

  // ---------------------------------------------------------------------------------------------
  // What is written
  // ---------------------------------------------------------------------------------------------

  lemma {:induction false} ItemLineOf(run: Id, product: Id, xs: seq<A.Remainder>, accepted: seq<OfferRow>, merged: seq<MergedDemand>)
    ensures forall l :: l in ItemLines(run, product, xs, accepted, merged) ==>
      exists x :: x in xs && l in RemainderLines(run, product, x, accepted, merged)
    ensures forall x, l :: x in xs && l in RemainderLines(run, product, x, accepted, merged) ==> l in ItemLines(run, product, xs, accepted, merged)
  {
    hide RemainderLines;
    if |xs| > 0 {
      var front, x := xs[..|xs| - 1], xs[|xs| - 1];
      ItemLineOf(run, product, front, accepted, merged);
      assert xs == front + [x];
    }
  }

  lemma {:induction false} RunLineOf(run: Id, planned: seq<PlannedItem>, accepted: seq<OfferRow>, merged: seq<MergedDemand>)
    ensures forall l :: l in RunLines(run, planned, accepted, merged) ==>
      exists p, x :: p in planned && x in p.out.remainders && l in RemainderLines(run, p.product, x, accepted, merged)
    ensures forall p, x, l :: p in planned && x in p.out.remainders && l in RemainderLines(run, p.product, x, accepted, merged) ==>
      l in RunLines(run, planned, accepted, merged)
  {
    hide RemainderLines, ItemLines;
    if |planned| > 0 {
      var front, p := planned[..|planned| - 1], planned[|planned| - 1];
      RunLineOf(run, front, accepted, merged);
      ItemLineOf(run, p.product, p.out.remainders, accepted, merged);
      assert planned == front + [p];
    }
  }

  lemma LineIsWritten(run: Id, planned: seq<PlannedItem>, accepted: seq<OfferRow>, merged: seq<MergedDemand>,
                      p: PlannedItem, x: A.Remainder, l: LineRow)
    requires p in planned && x in p.out.remainders && l in RemainderLines(run, p.product, x, accepted, merged)
    ensures l in RunLines(run, planned, accepted, merged)
  {
    hide RunLines, RemainderLines;
    RunLineOf(run, planned, accepted, merged);
  }

  lemma LinesAdded(before: Db, after: Db, session: Session, input: RunInput, now: Instant)
    requires RunDone(before, after, session, input, now)
    ensures session.id in after.runs && var mid := AfterExpiry(before, session);
      after.lines == before.lines + RunLines(session.id, after.runs[session.id], AcceptedOffers(mid.offers, mid.lines, session.id), input.merged)
  {
    hide IsPlanned, AfterExpiry, RunLines, AcceptedOffers, Total, Demanded, Owned, WrittenThenShipped, ServedThenGrown, Opened, ConvertedOffers;
  }

  lemma {:induction false} MergedIsFound(merged: seq<MergedDemand>, m: MergedDemand)
    requires MergedSound(merged) && m in merged
    ensures MergedFor(merged, m.id) == Some(m)
  {
    hide MergedFor;
    var found := MergedFor(merged, m.id);
    var i :| 0 <= i < |merged| && merged[i] == m;
    var j :| 0 <= j < |merged| && merged[j] == found.value;
  }

  /** Each source line of a merged demand has its result line: it gets what is left of the demand's grant
  once the lines before it are served, and waits for the rest. */
  lemma RunWritesRequestLine(before: Db, after: Db, session: Session, input: RunInput, now: Instant, p: PlannedItem, m: MergedDemand,
                             x: A.Remainder, j: nat)
    requires RunDone(before, after, session, input, now) && p in after.runs[session.id] && MergedSound(input.merged)
    requires m in input.merged && m.product == p.product && x in p.out.remainders && x.demand.id == m.id && j < |m.lines|
    ensures var quantity, earlier := m.lines[j].quantity, Sum(D.LineQuantities(m.lines)[..j]);
      var granted := Min(quantity, Max(0, x.granted - earlier));
      LineRow(session.id, m.store, m.product, ForRequest(m.lines[j].lineId), quantity, granted, quantity - granted) in after.lines[|before.lines|..]
  {
    var item := PlanOf(before, after, session, input, now, p);
    LinesAdded(before, after, session, input, now);
    hide RunDone, IsPlanned, RunLines, AcceptedOffers, Sum, MergedSound, AfterExpiry;
    var mid := AfterExpiry(before, session);
    var accepted := AcceptedOffers(mid.offers, mid.lines, session.id);
    AnswerOfRequest(mid, session.id, input, item, p, m, x);
    var line := RequestLine(session.id, p, m, x, j, accepted, input.merged);
    LineIsWritten(session.id, after.runs[session.id], accepted, input.merged, p, x, line);
  }

  lemma RequestLine(run: Id, p: PlannedItem, m: MergedDemand, x: A.Remainder, j: nat, accepted: seq<OfferRow>, merged: seq<MergedDemand>)
    returns (line: LineRow)
    requires MergedSound(merged) && m in merged && m.product == p.product && j < |m.lines|
    requires x.demand.id == m.id && x.demand.store == m.store && x.demand.source == A.OrderRequest
    ensures line in RemainderLines(run, p.product, x, accepted, merged)
    ensures var quantity, earlier := m.lines[j].quantity, Sum(D.LineQuantities(m.lines)[..j]);
      var granted := Min(quantity, Max(0, x.granted - earlier));
      line == LineRow(run, m.store, m.product, ForRequest(m.lines[j].lineId), quantity, granted, quantity - granted)
  {
    MergedIsFound(merged, m);
    hide FirstCome, Sum, MergedFor, MergedSound;
    FirstComeAt(D.LineQuantities(m.lines), x.granted, j);
    line := RequestLines(run, x.demand.store, p.product, m.lines, x.granted)[j];
  }

  /** Every accepted offer of the session that was not allocated yet has its result line: it says what was
  accepted and what the plan grants of it. */
  lemma RunWritesWaitLine(before: Db, after: Db, session: Session, input: RunInput, now: Instant, p: PlannedItem, o: OfferRow)
    returns (x: A.Remainder)
    requires Inv(before) && RunDone(before, after, session, input, now) && p in after.runs[session.id] && p.product == o.product
    requires o in before.offers && o.session == session.id && o.status == Accepted && !IsAllocated(before.lines, o.id)
    ensures x in p.out.remainders && x.demand.id == input.waitId(o.id) && x.demand.source == A.ConfirmedWait(o.ticket)
    ensures x.granted <= o.accepted
    ensures LineRow(session.id, o.store, o.product, ForOffer(o.ticket, o.id), o.accepted, x.granted, o.accepted - x.granted)
         in after.lines[|before.lines|..]
  {
    var item := PlanOf(before, after, session, input, now, p);
    LinesAdded(before, after, session, input, now);
    hide RunDone, Inv, IsPlanned, RunLines, AfterExpiry, IsAllocated, RemainderLines, AcceptedOffers;
    var mid := AfterExpiry(before, session);
    var accepted := AcceptedOffers(mid.offers, mid.lines, session.id);
    x := WaitIsAnswered(before, session, input, item, p, o);
    WaitIsWritten(before, session, p.product, x, o, accepted, input.merged);
    LineIsWritten(session.id, after.runs[session.id], accepted, input.merged, p, x, WaitLine(session.id, p.product, x, o));
    InTail(before.lines, after.lines, RunLines(session.id, after.runs[session.id], accepted, input.merged), WaitLine(session.id, p.product, x, o));
  }

  lemma InTail(before: seq<LineRow>, after: seq<LineRow>, more: seq<LineRow>, l: LineRow)
    requires after == before + more && l in more
    ensures l in after[|before|..]
  {
    assert after[|before|..] == more;
  }

  lemma WaitIsWritten(db: Db, session: Session, product: Id, x: A.Remainder, o: OfferRow, accepted: seq<OfferRow>, merged: seq<MergedDemand>)
    requires Inv(db) && o in db.offers && Owned(o, db.lines, session.id) && x.demand.source == A.ConfirmedWait(o.ticket)
    requires var mid := AfterExpiry(db, session); accepted == AcceptedOffers(mid.offers, mid.lines, session.id)
    ensures WaitLine(session.id, product, x, o) in RemainderLines(session.id, product, x, accepted, merged)
  {
    AcceptedStays(db, session, o);
    var mid := AfterExpiry(db, session);
    hide Inv, AfterExpiry, IsAllocated;
    OwnedIsFound(mid.offers, mid.lines, session.id, o);
    hide AcceptedOffers, OfferFor, Owned;
    assert RemainderLines(session.id, product, x, accepted, merged) == [WaitLine(session.id, product, x, o)];
  }

  lemma WaitIsAnswered(db: Db, session: Session, input: RunInput, item: SnapshotItem, p: PlannedItem, o: OfferRow) returns (x: A.Remainder)
    requires Inv(db) && IsPlanned(AfterExpiry(db, session), session.id, input, item, p)
    requires o in db.offers && Owned(o, db.lines, session.id) && o.product == p.product
    ensures x in p.out.remainders && x.demand == A.Demand(input.waitId(o.id), o.store, o.accepted, A.P0A, A.ConfirmedWait(o.ticket))
    ensures x.granted + x.remaining == o.accepted
  {
    AcceptedStays(db, session, o);
    var mid := AfterExpiry(db, session);
    hide Inv, AfterExpiry, A.IsOutcome, A.Valid, RequestDemands, WaitDemands, Capacity, AllocatableSnapshotQuantity, IsAllocated;
    AnswersAreDistinct(p.input, p.out);
    WaitDemandsMembers(mid.offers, mid.lines, session.id, p.product, input.waitId);
    var d := A.Demand(input.waitId(o.id), o.store, o.accepted, A.P0A, A.ConfirmedWait(o.ticket));
    DemandIsAnswered(p.input, p.out, d);
    x :| x in p.out.remainders && x.demand == d;
  }

  /** An accepted offer does not lapse, and no two offers of a session are for one ticket. */
  lemma AcceptedStays(db: Db, session: Session, o: OfferRow)
    requires Inv(db) && o in db.offers && o.status == Accepted
    ensures var mid := AfterExpiry(db, session);
      && o in mid.offers && mid.lines == db.lines
      && forall i, j :: 0 <= i < j < |mid.offers| ==> mid.offers[i].session != mid.offers[j].session || mid.offers[i].ticket != mid.offers[j].ticket
  {
    hide IsAllocated, Released, TimedOut, Expiring, TicketsSound, Stocked, ReservationsSound, ShipmentsSound, SnapshotsSound, ClaimsSound;
    var i :| 0 <= i < |db.offers| && db.offers[i] == o;
    assert AfterExpiry(db, session).offers[i] == o;
  }

  lemma LineComesFrom(run: Id, planned: seq<PlannedItem>, accepted: seq<OfferRow>, merged: seq<MergedDemand>, l: LineRow)
    returns (p: PlannedItem, x: A.Remainder)
    requires l in RunLines(run, planned, accepted, merged)
    ensures p in planned && x in p.out.remainders && l in RemainderLines(run, p.product, x, accepted, merged)
  {
    hide RunLines, RemainderLines;
    RunLineOf(run, planned, accepted, merged);
    p, x :| p in planned && x in p.out.remainders && l in RemainderLines(run, p.product, x, accepted, merged);
  }

  /** The lines of a run are of its accepted offers and of the source lines of its merged demands, each of
  its store and product, for what was asked; what is not granted waits. */
  lemma RunWritesNothingElse(before: Db, after: Db, session: Session, input: RunInput, now: Instant, l: LineRow)
    requires RunDone(before, after, session, input, now) && MergedSound(input.merged) && l in after.lines[|before.lines|..]
    ensures l.run == session.id && l.granted + l.waitlisted == l.requested
    ensures match l.source
      case ForOffer(ticket, id) => exists o ::
        && o in AfterExpiry(before, session).offers && o.session == session.id && o.status == Accepted && !IsAllocated(before.lines, o.id)
        && o.id == id && o.ticket == ticket
      case ForRequest(id) => exists m, j ::
        && m in input.merged && 0 <= j < |m.lines| && m.lines[j] == D.SourceLine(id, l.requested) && m.store == l.store && m.product == l.product
  {
    LinesAdded(before, after, session, input, now);
    var mid, planned := AfterExpiry(before, session), after.runs[session.id];
    var accepted := AcceptedOffers(mid.offers, mid.lines, session.id);
    assert after.lines[|before.lines|..] == RunLines(session.id, planned, accepted, input.merged);
    var p, x := LineComesFrom(session.id, planned, accepted, input.merged, l);
    var item := PlanOf(before, after, session, input, now, p);
    hide RunDone, RunLines, AfterExpiry;
    RemainderLineIs(mid, session.id, input, item, p, x, accepted, l);
    assert mid.lines == before.lines by { ExpiryKeepsRest(before, session); }
  }

  lemma RemainderLineIs(db: Db, session: Id, input: RunInput, item: SnapshotItem, p: PlannedItem, x: A.Remainder, accepted: seq<OfferRow>, l: LineRow)
    requires IsPlanned(db, session, input, item, p) && x in p.out.remainders && accepted == AcceptedOffers(db.offers, db.lines, session)
    requires MergedSound(input.merged) && l in RemainderLines(session, p.product, x, accepted, input.merged)
    ensures l.run == session && l.granted + l.waitlisted == l.requested
    ensures match l.source
      case ForOffer(ticket, id) => exists o ::
        && o in db.offers && o.session == session && o.status == Accepted && !IsAllocated(db.lines, o.id) && o.id == id && o.ticket == ticket
      case ForRequest(id) => exists m, j ::
        && m in input.merged && 0 <= j < |m.lines| && m.lines[j] == D.SourceLine(id, l.requested) && m.store == l.store && m.product == l.product
  {
    AnswersAreDistinct(p.input, p.out);
    if x.demand.source.ConfirmedWait? {
      hide IsPlanned, AcceptedOffers, OfferFor, MergedFor, IsAllocated;
      var o := OfferFor(accepted, x.demand.source.ticket).value;
      assert l == WaitLine(session, p.product, x, o);
      assert o in db.offers && Owned(o, db.lines, session) by { AcceptedIsOwned(db.offers, db.lines, session, o); }
    } else {
      RequestLineIs(db, session, input, item, p, x, accepted, l);
    }
  }

  lemma AcceptedIsOwned(offers: seq<OfferRow>, lines: seq<LineRow>, session: Id, o: OfferRow)
    requires o in AcceptedOffers(offers, lines, session)
    ensures o in offers && Owned(o, lines, session)
  {
    FilterCounts(offers, (x: OfferRow) => Owned(x, lines, session), o);
  }

  lemma RequestLineIs(db: Db, session: Id, input: RunInput, item: SnapshotItem, p: PlannedItem, x: A.Remainder, accepted: seq<OfferRow>, l: LineRow)
    requires IsPlanned(db, session, input, item, p) && x in p.out.remainders && !x.demand.source.ConfirmedWait? && MergedSound(input.merged)
    requires l in RemainderLines(session, p.product, x, accepted, input.merged)
    ensures l.run == session && l.granted + l.waitlisted == l.requested && l.source.ForRequest?
    ensures exists m, j ::
      && m in input.merged && 0 <= j < |m.lines| && m.lines[j] == D.SourceLine(l.source.line, l.requested) && m.store == l.store && m.product == l.product
  {
    AnswersAreRequests(db, session, input, item, p);
    hide IsPlanned, FirstCome, Sum;
    var m :| m in input.merged && m.product == p.product && x.demand.id == m.id && x.demand.store == m.store;
    MergedIsFound(input.merged, m);
    hide MergedFor, MergedSound;
    var rows := RequestLines(session, x.demand.store, p.product, m.lines, x.granted);
    var j :| 0 <= j < |rows| && rows[j] == l;
  }

  // ---------------------------------------------------------------------------------------------
  // What becomes of offers and tickets
  // ---------------------------------------------------------------------------------------------

  /** An unanswered offer lapses when its deadline has come by the session's allocation time, the
  session's own at that time already; an offer that the run allocates gives up its hold; every other
  offer stays as it is. */
  lemma RunChangesOffers(before: Db, after: Db, session: Session, input: RunInput, now: Instant, i: nat)
    requires RunDone(before, after, session, input, now) && i < |before.offers|
    ensures |after.offers| == |before.offers|
    ensures var o := before.offers[i];
      after.offers[i] ==
        if o.status == Offered && (o.deadline < session.finalDueAt || (o.deadline == session.finalDueAt && o.session == session.id))
        then o.(status := Expired, accepted := 0, held := 0)
        else if o.status == Accepted && o.session == session.id && !IsAllocated(before.lines, o.id) then o.(held := 0)
        else o
  {
    hide IsPlanned, RunLines, AcceptedOffers, Total, Demanded, WrittenThenShipped, ServedThenGrown, Opened, IsAllocated, TimedOut, Released, Expiring;
  }

  /** Before the run a wait ends exactly when a lapsing offer covered all of it, at the time and still, and
  no other offer of the ticket waits for an answer or for a run. */
  lemma RunEndsWaits(before: Db, session: Session, t: nat)
    requires t < |before.tickets|
    ensures var w := before.tickets[t];
      var mid := AfterExpiry(before, session);
      |mid.tickets| == |before.tickets| && mid.tickets[t] ==
        if w.status == Waiting
           && (exists o :: o in before.offers && o.ticket == t && o.status == Offered
                 && (o.deadline < session.finalDueAt || (o.deadline == session.finalDueAt && o.session == session.id))
                 && o.eligible <= o.offered && w.remaining <= o.offered)
           && (forall o :: o in mid.offers && o.ticket == t ==> o.status != Offered && (o.status == Accepted ==> IsAllocated(before.lines, o.id)))
        then w.(status := Cancelled) else w
  {
    hide IsAllocated, Released;
    var lapsed := Expiring(before.offers, session);
    forall o ensures o in lapsed <==> o in before.offers && Expirable(o, session) {
      FilterCounts(before.offers, (x: OfferRow) => Expirable(x, session), o);
    }
  }

  /** A ticket is served what the plans grant it, is fulfilled when that is all it waited for, and grows only
  while it waits. */
  lemma RunServesTicket(before: Db, after: Db, session: Session, input: RunInput, now: Instant, t: nat)
    requires RunDone(before, after, session, input, now) && t < |before.tickets|
    ensures t < |AfterExpiry(before, session).tickets| && t < |after.tickets|
    ensures var w, v := AfterExpiry(before, session).tickets[t], after.tickets[t];
      var granted := Total(after.runs[session.id], (p: PlannedItem) =>
        Total(p.out.remainders, (x: A.Remainder) => if x.demand.source == A.ConfirmedWait(t) then x.granted else 0));
      var grown := v.original - w.original;
      && granted <= w.remaining && grown >= 0 && (grown > 0 ==> v.status == Waiting)
      && v == w.(original := w.original + grown, remaining := w.remaining - granted + grown, fulfilled := w.fulfilled + granted,
                 status := if granted > 0 && granted == w.remaining then Fulfilled else w.status)
      && (granted > 0 ==> w.status == Waiting)
  {
    hide IsPlanned, RunLines, AcceptedOffers, Demanded, WrittenThenShipped, Opened, AfterExpiry, Total, ConvertedOffers, IsAllocated;
    var mid, planned := AfterExpiry(before, session), after.runs[session.id];
    assert |mid.tickets| == |before.tickets| by { RunEndsWaits(before, session, t); }
    var served: seq<TicketRow> :| ServedThenGrown(mid.tickets, served, after.tickets, planned);
    GrantIsTotal(planned, t);
    assert IsServed(mid.tickets[t], served[t], PlanGrant(planned, t));
    assert GrewBy(served[t], after.tickets[t], after.tickets[t].original - served[t].original);
  }

  lemma GrantIsTotal(planned: seq<PlannedItem>, t: Id)
    ensures PlanGrant(planned, t) == Total(planned, (p: PlannedItem) =>
      Total(p.out.remainders, (x: A.Remainder) => if x.demand.source == A.ConfirmedWait(t) then x.granted else 0))
  {
    forall k | 0 <= k < |planned|
      ensures TicketGrant(planned[k].out.remainders, t)
           == Total(planned[k].out.remainders, (x: A.Remainder) => if x.demand.source == A.ConfirmedWait(t) then x.granted else 0)
    {
      TotalSame(planned[k].out.remainders, GrantOf(t), planned[k].out.remainders,
                (x: A.Remainder) => if x.demand.source == A.ConfirmedWait(t) then x.granted else 0);
    }
    TotalSame(planned, (p: PlannedItem) => TicketGrant(p.out.remainders, t), planned, (p: PlannedItem) =>
      Total(p.out.remainders, (x: A.Remainder) => if x.demand.source == A.ConfirmedWait(t) then x.granted else 0));
  }

  /** What the requests of a store did not get of a product. */
  function Lacking(store: Id, product: Id): PlannedItem -> nat {
    (p: PlannedItem) =>
      if p.product == product
      then Total(p.out.remainders, (x: A.Remainder) => if x.demand.store == store && !x.demand.source.ConfirmedWait? then x.remaining else 0)
      else 0
  }

  /** What a store ever waited for of a product grows by that. */
  lemma {:induction false} RunOpensWaits(before: Db, after: Db, session: Session, input: RunInput, now: Instant, store: Id, product: Id)
    requires RunDone(before, after, session, input, now)
    ensures session.id in after.runs
    ensures Demanded(after.tickets, store, product) == Demanded(before.tickets, store, product) + Total(after.runs[session.id], Lacking(store, product))
  {
    hide IsPlanned, RunLines, AcceptedOffers, WrittenThenShipped, ServedThenGrown, AfterExpiry, Total, ConvertedOffers, IsAllocated, Demanded;
    LackingIs(after.runs[session.id], store, product);
  }

  lemma {:induction false} LackingIs(planned: seq<PlannedItem>, store: Id, product: Id)
    ensures Total(planned, ItemOrderWaits(store, product)) == Total(planned, Lacking(store, product))
  {
    forall k | 0 <= k < |planned| ensures ItemOrderWaits(store, product)(planned[k]) == Lacking(store, product)(planned[k]) {
      TotalSame(planned[k].out.remainders, OrderWait(store), planned[k].out.remainders,
                (x: A.Remainder) => if x.demand.store == store && !x.demand.source.ConfirmedWait? then x.remaining else 0);
    }
    TotalSame(planned, ItemOrderWaits(store, product), planned, Lacking(store, product));
  }

  // ---------------------------------------------------------------------------------------------
  // What ships
  // ---------------------------------------------------------------------------------------------

  /** A reservation, old or new, gets on a shipment line of this run exactly when it was on none, its store
  has an ordinary order, and it is of this run or of a completed one whose result may ship; nothing else
  about reservations changes. */
  lemma RunShips(before: Db, after: Db, session: Session, input: RunInput, now: Instant, i: nat)
    requires Inv(after) && RunDone(before, after, session, input, now) && i < |after.reservations|
    ensures |before.reservations| <= |after.reservations| && |before.shipments| <= |after.shipments|
    ensures after.reservations[i].line < |after.lines|
    ensures var r, line := after.reservations[i], after.lines[after.reservations[i].line];
      var was := if i < |before.reservations| then before.reservations[i] else r.(status := Reserved, shipment := None);
      if was.shipment.None? && line.granted > 0 && r.store in input.shippingStores
         && (line.run == session.id || (line.run in before.runs && input.shippable(line.run, r.store)))
      then r.shipment.Some? && |before.shipments| <= r.shipment.value < |after.shipments| && r == was.(shipment := r.shipment)
           && after.shipments[r.shipment.value].run == session.id
      else r == was
  {
    hide IsPlanned, RunLines, AcceptedOffers, Total, Demanded, ServedThenGrown, Opened, AfterExpiry, ConvertedOffers, IsAllocated,
         LineGrants, LineWaits, ActivelyReserved, Stocked, OffersSound, TicketsSound, SnapshotsSound, ShipmentsSound, ClaimsSound;
    var planned := after.runs[session.id];
    var written: Db :| WrittenThenShipped(before, written, after, session.id, input, planned);
    var r := written.reservations[i];
    assert after.reservations[i] in after.reservations;
    assert ReservationSound(after.reservations[i], after.lines, after.shipments);
    if Rides(r, written.lines, written.runs.Keys, session.id, input) {
      assert OnNewLine(written, after, i);
    }
  }
}
