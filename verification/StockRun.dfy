/** The final run's plan: what each product may allocate, to whom, and why it fits.

A product may allocate what its snapshot showed, as far as that is still free, plus the stock its
own accepted offers hold already. */
module StockRun {
  import opened Common
  import opened Quantities
  import opened Ordering
  import opened StockTables
  import A = Allocation
  import D = DemandSplit

  /** The requests of one store for one product, merged; the lines stay known. */
  datatype MergedDemand = MergedDemand(id: Id, store: Id, product: Id, priority: A.Priority, lines: seq<D.SourceLine>)

  /** What the final run reads besides the tables: merged requests, supplier caps, the ring of stores,
  the cursors of earlier runs, the stores with an ordinary order, and whose earlier results may ship. */
  datatype RunInput = RunInput(
    merged: seq<MergedDemand>, caps: map<Id, int>, storeOrder: seq<Id>, cursors: map<Id, Id>, waitId: Id -> Id,
    shippingStores: set<Id>, shippable: (Id, Id) -> bool)

  /** An accepted offer that this session still has to allocate. */
  predicate Owned(o: OfferRow, lines: seq<LineRow>, session: Id) {
    o.session == session && o.status == Accepted && !IsAllocated(lines, o.id)
  }

  function RequestDemands(merged: seq<MergedDemand>, product: Id): seq<A.Demand> {
    if |merged| == 0 then []
    else
      var m := merged[|merged| - 1];
      RequestDemands(merged[..|merged| - 1], product)
      + if m.product == product
        then [A.Demand(m.id, m.store, Sum(D.LineQuantities(m.lines)), m.priority, A.OrderRequest)] else []
  }

  function WaitDemands(offers: seq<OfferRow>, lines: seq<LineRow>, session: Id, product: Id, waitId: Id -> Id): seq<A.Demand> {
    if |offers| == 0 then []
    else
      var o := offers[|offers| - 1];
      WaitDemands(offers[..|offers| - 1], lines, session, product, waitId)
      + if Owned(o, lines, session) && o.product == product
        then [A.Demand(waitId(o.id), o.store, o.accepted, A.P0A, A.ConfirmedWait(o.ticket))] else []
  }

  /** Every accepted offer still stands for an open wait. */
  predicate WaitsStand(offers: seq<OfferRow>, lines: seq<LineRow>, tickets: seq<TicketRow>, session: Id) {
    forall o :: o in offers && Owned(o, lines, session) ==> Stands(o, tickets)
  }

  function OwnedHold(lines: seq<LineRow>, session: Id, product: Id): OfferRow -> nat {
    (o: OfferRow) => if Owned(o, lines, session) && o.product == product then o.held else 0
  }

  /** Stock the session's accepted offers hold. */
  function HeldByAccepted(offers: seq<OfferRow>, lines: seq<LineRow>, session: Id, product: Id): nat {
    Total(offers, OwnedHold(lines, session, product))
  }

  /** Free stock, never negative, capped by the supplier's free stock where there is a cap. */
  function FreeToAllocate(balances: Balances, caps: map<Id, int>, product: Id): int {
    var b := BalanceOf(balances, product);
    var free := Monus(b.onHand, b.reserved);
    if product in caps && caps[product] < free then caps[product] else free
  }

  function Capacity(db: Db, session: Id, caps: map<Id, int>, product: Id): int {
    FreeToAllocate(db.balances, caps, product) + HeldByAccepted(db.offers, db.lines, session, product)
  }

  /** Never more than the snapshot showed, never more than there is now. */
  function AllocatableSnapshotQuantity(available: int, capacity: int): (r: nat)
    ensures r > 0 ==> r <= available && r <= capacity
    ensures r < available && r < capacity ==> r == 0 && (available <= 0 || capacity <= 0)
  {
    var least := if available < capacity then available else capacity;
    if least < 0 then 0 else least
  }

  function AllocatorInput(db: Db, session: Id, input: RunInput, item: SnapshotItem): A.Input {
    var capacity := Capacity(db, session, input.caps, item.product);
    A.Input(AllocatableSnapshotQuantity(item.available, capacity),
            RequestDemands(input.merged, item.product) + WaitDemands(db.offers, db.lines, session, item.product, input.waitId),
            input.storeOrder,
            if item.product in input.cursors then Some(input.cursors[item.product]) else None)
  }

  ghost predicate IsPlanned(db: Db, session: Id, input: RunInput, item: SnapshotItem, p: PlannedItem) {
    p.product == item.product && p.input == AllocatorInput(db, session, input, item)
    && A.Valid(p.input) && A.IsOutcome(p.input, p.out)
  }

  // ---------------------------------------------------------------------------------------------
  // Grants to tickets
  // ---------------------------------------------------------------------------------------------

  function GrantOf(ticket: Id): A.Remainder -> nat {
    (x: A.Remainder) => if x.demand.source == A.ConfirmedWait(ticket) then x.granted else 0
  }

  function TicketGrant(remainders: seq<A.Remainder>, ticket: Id): nat {
    Total(remainders, GrantOf(ticket))
  }

  /** The waits of a plan are for tickets of its product, and get no more than these still wait for. */
  ghost predicate Feasible(tickets: seq<TicketRow>, product: Id, remainders: seq<A.Remainder>) {
    && (forall x :: x in remainders ==> WaitMatches(tickets, product, x))
    && (forall t: nat :: t < |tickets| ==> GrantStands(tickets, t, TicketGrant(remainders, t)))
  }

  ghost predicate WaitMatches(tickets: seq<TicketRow>, product: Id, x: A.Remainder) {
    match x.demand.source
    case ConfirmedWait(t) => 0 <= t < |tickets| && tickets[t].product == product && tickets[t].store == x.demand.store
    case _ => true
  }

  ghost predicate GrantStands(tickets: seq<TicketRow>, t: nat, g: nat)
    requires t < |tickets|
  {
    g <= tickets[t].remaining && (g > 0 ==> tickets[t].status == Waiting)
  }

  function AskOf(ticket: Id): A.Demand -> nat {
    (d: A.Demand) => if d.source == A.ConfirmedWait(ticket) then d.requested else 0
  }

  function AcceptedOf(lines: seq<LineRow>, session: Id, product: Id, ticket: Id): OfferRow -> nat {
    (o: OfferRow) => if Owned(o, lines, session) && o.product == product && o.ticket == ticket then o.accepted else 0
  }

  /** A total with at most one row that counts. */
  lemma {:induction false} TotalAtMostOne<T>(rows: seq<T>, f: T -> nat, bound: nat)
    requires forall i :: 0 <= i < |rows| ==> f(rows[i]) <= bound
    requires forall i, j :: 0 <= i < j < |rows| ==> f(rows[i]) == 0 || f(rows[j]) == 0
    ensures Total(rows, f) <= bound
  {
    if |rows| > 0 {
      var front := rows[..|rows| - 1];
      assert forall i :: 0 <= i < |front| ==> front[i] == rows[i];
      if f(rows[|rows| - 1]) > 0 {
        TotalZero(front, f);
      } else {
        TotalAtMostOne(front, f, bound);
      }
    }
  }

  lemma {:induction false} WaitDemandsTotal(offers: seq<OfferRow>, lines: seq<LineRow>, session: Id, product: Id, waitId: Id -> Id, ticket: Id)
    ensures Total(WaitDemands(offers, lines, session, product, waitId), AskOf(ticket))
         == Total(offers, AcceptedOf(lines, session, product, ticket))
  {
    hide Owned;
    if |offers| == 0 { return; }
    var front, o := offers[..|offers| - 1], offers[|offers| - 1];
    WaitDemandsTotal(front, lines, session, product, waitId, ticket);
    var before, after := WaitDemands(front, lines, session, product, waitId), WaitDemands(offers, lines, session, product, waitId);
    var d := A.Demand(waitId(o.id), o.store, o.accepted, A.P0A, A.ConfirmedWait(o.ticket));
    assert after == if Owned(o, lines, session) && o.product == product then before + [d] else before;
    TotalPush(before, d, AskOf(ticket));
    TotalTake(offers, |front|, AcceptedOf(lines, session, product, ticket));
    assert offers[..|front| + 1] == offers;
    hide WaitDemands, Total;
  }

  /** The waits of a product are the session's accepted offers for it, each for what was accepted. */
  lemma {:induction false} WaitDemandsMembers(offers: seq<OfferRow>, lines: seq<LineRow>, session: Id, product: Id, waitId: Id -> Id)
    ensures forall d :: d in WaitDemands(offers, lines, session, product, waitId) ==>
      exists o :: o in offers && Owned(o, lines, session) && o.product == product
                  && d == A.Demand(waitId(o.id), o.store, o.accepted, A.P0A, A.ConfirmedWait(o.ticket))
    ensures forall o :: o in offers && Owned(o, lines, session) && o.product == product ==>
      A.Demand(waitId(o.id), o.store, o.accepted, A.P0A, A.ConfirmedWait(o.ticket)) in WaitDemands(offers, lines, session, product, waitId)
  {
    hide Owned;
    if |offers| > 0 {
      var front, last := offers[..|offers| - 1], offers[|offers| - 1];
      WaitDemandsMembers(front, lines, session, product, waitId);
      assert offers == front + [last];
    }
  }

  lemma {:induction false} RequestsAskNothing(merged: seq<MergedDemand>, product: Id, ticket: Id)
    ensures forall d :: d in RequestDemands(merged, product) ==> d.source == A.OrderRequest
    ensures Total(RequestDemands(merged, product), AskOf(ticket)) == 0
  {
    if |merged| > 0 {
      var m, before := merged[|merged| - 1], RequestDemands(merged[..|merged| - 1], product);
      RequestsAskNothing(merged[..|merged| - 1], product, ticket);
      if m.product == product {
        TotalPush(before, A.Demand(m.id, m.store, Sum(D.LineQuantities(m.lines)), m.priority, A.OrderRequest), AskOf(ticket));
      } else {
        assert RequestDemands(merged, product) == before;
      }
    }
  }

  lemma {:induction false} GrantedWithinAsked(remainders: seq<A.Remainder>, ds: seq<A.Demand>, ticket: Id)
    requires |remainders| == |ds|
    requires forall i :: 0 <= i < |ds| ==> remainders[i].demand == ds[i] && remainders[i].granted <= ds[i].requested
    ensures TicketGrant(remainders, ticket) <= Total(ds, AskOf(ticket))
  {
    if |ds| > 0 {
      GrantedWithinAsked(remainders[..|ds| - 1], ds[..|ds| - 1], ticket);
    }
  }

  /** One accepted offer per ticket and session: together they take no more than the ticket waits for. */
  lemma AcceptedWithinRemaining(db: Db, session: Id, product: Id, ticket: nat)
    requires OffersSound(db.offers, db.tickets, db.snapshots) && ticket < |db.tickets|
    requires WaitsStand(db.offers, db.lines, db.tickets, session)
    ensures Total(db.offers, AcceptedOf(db.lines, session, product, ticket)) <= db.tickets[ticket].remaining
    ensures Total(db.offers, AcceptedOf(db.lines, session, product, ticket)) > 0 ==> db.tickets[ticket].status == Waiting
  {
    hide IsAllocated;
    var f := AcceptedOf(db.lines, session, product, ticket);
    TotalAtMostOne(db.offers, f, db.tickets[ticket].remaining);
    TotalZero(db.offers, f);
    if Total(db.offers, f) > 0 {
      var i :| 0 <= i < |db.offers| && f(db.offers[i]) != 0;
      assert db.offers[i] in db.offers;
    }
  }

  lemma PlanIsFeasible(db: Db, session: Id, input: RunInput, item: SnapshotItem, p: PlannedItem)
    requires OffersSound(db.offers, db.tickets, db.snapshots)
    requires WaitsStand(db.offers, db.lines, db.tickets, session) && IsPlanned(db, session, input, item, p)
    ensures Feasible(db.tickets, p.product, p.out.remainders)
  {
    hide Owned, A.Recorded, A.EndsAt, A.Valid, WaitsStand, AllocatableSnapshotQuantity, Capacity, RequestDemands, WaitDemands;
    var ds := A.InServingOrder(p.input.demands);
    var requests, waits := RequestDemands(input.merged, p.product), WaitDemands(db.offers, db.lines, session, p.product, input.waitId);
    SortPermutes(p.input.demands, A.DemandOrder);
    SameElements(ds, p.input.demands);
    WaitDemandsMembers(db.offers, db.lines, session, p.product, input.waitId);
    RequestsAskNothing(input.merged, p.product, 0);
    forall x | x in p.out.remainders ensures WaitMatches(db.tickets, p.product, x) {
      var i :| 0 <= i < |p.out.remainders| && p.out.remainders[i] == x;
      assert x.demand == ds[i] && ds[i] in p.input.demands;
    }
    forall t: nat | t < |db.tickets| ensures GrantStands(db.tickets, t, TicketGrant(p.out.remainders, t)) {
      GrantedWithinAsked(p.out.remainders, ds, t);
      TotalPermute(ds, p.input.demands, AskOf(t));
      TotalAppend(requests, waits, AskOf(t));
      RequestsAskNothing(input.merged, p.product, t);
      WaitDemandsTotal(db.offers, db.lines, session, p.product, input.waitId, t);
      AcceptedWithinRemaining(db, session, p.product, t);
    }
  }

  /** The offers whose waits a run allocates. */
  function AcceptedOffers(offers: seq<OfferRow>, lines: seq<LineRow>, session: Id): seq<OfferRow> {
    Filter(offers, (o: OfferRow) => Owned(o, lines, session))
  }

  /** Every wait of a plan has its accepted offer. */
  ghost predicate WaitsHaveOffers(accepted: seq<OfferRow>, remainders: seq<A.Remainder>) {
    forall x :: x in remainders && x.demand.source.ConfirmedWait? ==> exists o :: o in accepted && o.ticket == x.demand.source.ticket
  }

  lemma PlanHasOffers(db: Db, session: Id, input: RunInput, item: SnapshotItem, p: PlannedItem)
    requires IsPlanned(db, session, input, item, p)
    ensures WaitsHaveOffers(AcceptedOffers(db.offers, db.lines, session), p.out.remainders)
  {
    hide Owned, A.Recorded, A.EndsAt, A.Valid, AllocatableSnapshotQuantity, Capacity, RequestDemands, WaitDemands;
    var accepted := AcceptedOffers(db.offers, db.lines, session);
    var ds := A.InServingOrder(p.input.demands);
    SortPermutes(p.input.demands, A.DemandOrder);
    SameElements(ds, p.input.demands);
    WaitDemandsMembers(db.offers, db.lines, session, p.product, input.waitId);
    RequestsAskNothing(input.merged, p.product, 0);
    forall x | x in p.out.remainders && x.demand.source.ConfirmedWait?
      ensures exists o :: o in accepted && o.ticket == x.demand.source.ticket
    {
      var i :| 0 <= i < |p.out.remainders| && p.out.remainders[i] == x;
      assert x.demand == ds[i] && ds[i] in p.input.demands;
      var o :| o in db.offers && Owned(o, db.lines, session) && x.demand.source == A.ConfirmedWait(o.ticket);
      FilterCounts(db.offers, (o: OfferRow) => Owned(o, db.lines, session), o);
    }
  }

  /** Merged demands are told apart by their ids. */
  ghost predicate MergedSound(merged: seq<MergedDemand>) {
    forall i, j :: 0 <= i < j < |merged| ==> merged[i].id != merged[j].id
  }

  /** The requests of a product are its merged demands, each for all its lines ask and with its priority. */
  lemma {:induction false} RequestDemandsMembers(merged: seq<MergedDemand>, product: Id)
    ensures forall d :: d in RequestDemands(merged, product) ==>
      exists m :: m in merged && m.product == product
                  && d == A.Demand(m.id, m.store, Sum(D.LineQuantities(m.lines)), m.priority, A.OrderRequest)
    ensures forall m :: m in merged && m.product == product ==>
      A.Demand(m.id, m.store, Sum(D.LineQuantities(m.lines)), m.priority, A.OrderRequest) in RequestDemands(merged, product)
  {
    hide Sum;
    if |merged| > 0 {
      var front, last := merged[..|merged| - 1], merged[|merged| - 1];
      RequestDemandsMembers(front, product);
      assert merged == front + [last];
    }
  }

  /** Every request of a plan has its merged demand, with lines worth exactly what it asks for. */
  lemma PlanHasMerged(db: Db, session: Id, input: RunInput, item: SnapshotItem, p: PlannedItem, i: nat)
    requires IsPlanned(db, session, input, item, p) && i < |p.out.remainders| && !p.out.remainders[i].demand.source.ConfirmedWait?
    ensures exists m :: m in input.merged && m.id == p.out.remainders[i].demand.id && m.store == p.out.remainders[i].demand.store
                && m.product == p.product && p.out.remainders[i].demand.requested == Sum(D.LineQuantities(m.lines))
  {
    hide Owned, A.Recorded, A.EndsAt, A.Valid, AllocatableSnapshotQuantity, Capacity, RequestDemands, WaitDemands, Sum;
    var ds := A.InServingOrder(p.input.demands);
    SortPermutes(p.input.demands, A.DemandOrder);
    SameElements(ds, p.input.demands);
    WaitDemandsMembers(db.offers, db.lines, session, p.product, input.waitId);
    RequestDemandsMembers(input.merged, p.product);
    assert p.out.remainders[i].demand == ds[i] && ds[i] in p.input.demands;
  }

  /** What a product allocates fits into its free stock and its own holds. */
  lemma GrantFits(db: Db, session: Id, input: RunInput, item: SnapshotItem, p: PlannedItem)
    requires IsPlanned(db, session, input, item, p)
    requires BalanceOf(db.balances, p.product).reserved <= BalanceOf(db.balances, p.product).onHand
    ensures BalanceOf(db.balances, p.product).reserved + p.out.granted
         <= BalanceOf(db.balances, p.product).onHand + HeldByAccepted(db.offers, db.lines, session, p.product)
  {
    hide HeldByAccepted, A.Recorded, A.EndsAt, A.Valid, A.InServingOrder;
  }

  // ---------------------------------------------------------------------------------------------
  // Converting holds
  // ---------------------------------------------------------------------------------------------

  /** What the last remainder for a ticket was granted. */
  function GrantIn(remainders: seq<A.Remainder>, ticket: Id): Option<nat> {
    if |remainders| == 0 then None
    else
      var x := remainders[|remainders| - 1];
      if x.demand.source == A.ConfirmedWait(ticket) then Some(x.granted) else GrantIn(remainders[..|remainders| - 1], ticket)
  }

  function GrantFor(planned: seq<PlannedItem>, ticket: Id): Option<nat> {
    if |planned| == 0 then None
    else
      var g := GrantIn(planned[|planned| - 1].out.remainders, ticket);
      if g.Some? then g else GrantFor(planned[..|planned| - 1], ticket)
  }

  function ValueOr(g: Option<nat>, otherwise: nat): nat {
    match g
    case Some(v) => v
    case None => otherwise
  }

  /** The part of its hold an offer keeps: what its ticket was granted. */
  function KeptOf(planned: seq<PlannedItem>, o: OfferRow): (r: nat)
    ensures r <= o.held
  {
    Min(o.held, ValueOr(GrantFor(planned, o.ticket), 0))
  }

  function OwnedKept(planned: seq<PlannedItem>, lines: seq<LineRow>, session: Id, product: Id): OfferRow -> nat {
    (o: OfferRow) => if Owned(o, lines, session) && o.product == product then KeptOf(planned, o) else 0
  }

  function KeptFor(planned: seq<PlannedItem>, offers: seq<OfferRow>, lines: seq<LineRow>, session: Id, product: Id): nat {
    Total(offers, OwnedKept(planned, lines, session, product))
  }

  function Converted(o: OfferRow, lines: seq<LineRow>, session: Id): OfferRow {
    if Owned(o, lines, session) then o.(held := 0) else o
  }

  function ConvertedOffers(offers: seq<OfferRow>, lines: seq<LineRow>, session: Id): (r: seq<OfferRow>)
    ensures |r| == |offers|
  {
    seq(|offers|, i requires 0 <= i < |offers| => Converted(offers[i], lines, session))
  }

  lemma ConvertedHolds(offers: seq<OfferRow>, lines: seq<LineRow>, session: Id, product: Id)
    ensures Held(ConvertedOffers(offers, lines, session), product) + HeldByAccepted(offers, lines, session, product) == Held(offers, product)
  {
    hide Owned;
    var after := ConvertedOffers(offers, lines, session);
    TotalPlus(after, HeldOf(product), offers, OwnedHold(lines, session, product), offers, HeldOf(product));
  }

  ghost predicate ProductsDistinct(planned: seq<PlannedItem>) {
    forall i, j :: 0 <= i < j < |planned| ==> planned[i].product != planned[j].product
  }

  ghost predicate AllFeasible(tickets: seq<TicketRow>, planned: seq<PlannedItem>) {
    forall p :: p in planned ==> Feasible(tickets, p.product, p.out.remainders)
  }

  lemma {:induction false} GrantInWithin(remainders: seq<A.Remainder>, ticket: Id)
    ensures ValueOr(GrantIn(remainders, ticket), 0) <= TicketGrant(remainders, ticket)
    ensures GrantIn(remainders, ticket).Some? ==> exists x :: x in remainders && x.demand.source == A.ConfirmedWait(ticket)
  {
    if |remainders| > 0 {
      GrantInWithin(remainders[..|remainders| - 1], ticket);
      assert remainders[|remainders| - 1] in remainders;
    }
  }

  /** A ticket's grant comes from the plan of its own product. */
  lemma {:induction false} GrantComesFrom(tickets: seq<TicketRow>, planned: seq<PlannedItem>, ticket: nat)
    requires ticket < |tickets| && AllFeasible(tickets, planned)
    ensures GrantFor(planned, ticket).Some? ==>
      exists p :: p in planned && p.product == tickets[ticket].product
                  && ValueOr(GrantFor(planned, ticket), 0) <= TicketGrant(p.out.remainders, ticket)
  {
    hide TicketGrant;
    if |planned| > 0 {
      var p := planned[|planned| - 1];
      assert p in planned;
      GrantInWithin(p.out.remainders, ticket);
      GrantComesFrom(tickets, planned[..|planned| - 1], ticket);
      if GrantIn(p.out.remainders, ticket).Some? {
        var x :| x in p.out.remainders && x.demand.source == A.ConfirmedWait(ticket);
        assert WaitMatches(tickets, p.product, x);
      }
    }
  }

  function OwnedGrant(remainders: seq<A.Remainder>, lines: seq<LineRow>, session: Id, product: Id): OfferRow -> nat {
    (o: OfferRow) => if Owned(o, lines, session) && o.product == product then TicketGrant(remainders, o.ticket) else 0
  }

  function OwnedLast(x: A.Remainder, lines: seq<LineRow>, session: Id, product: Id): OfferRow -> nat {
    (o: OfferRow) => if Owned(o, lines, session) && o.product == product && x.demand.source == A.ConfirmedWait(o.ticket) then x.granted else 0
  }

  /** The session's offers are for different tickets, so they share the grants without counting any twice. */
  lemma {:induction false} OffersShareGrants(offers: seq<OfferRow>, remainders: seq<A.Remainder>, lines: seq<LineRow>, session: Id, product: Id)
    requires forall i, j :: 0 <= i < j < |offers| ==> offers[i].session != offers[j].session || offers[i].ticket != offers[j].ticket
    ensures Total(offers, OwnedGrant(remainders, lines, session, product)) <= Sum(A.Granted(remainders))
  {
    hide IsAllocated;
    if |remainders| == 0 {
      TotalZero(offers, OwnedGrant(remainders, lines, session, product));
    } else {
      var front, x := remainders[..|remainders| - 1], remainders[|remainders| - 1];
      OffersShareGrants(offers, front, lines, session, product);
      TotalPlus(offers, OwnedGrant(front, lines, session, product), offers, OwnedLast(x, lines, session, product),
                offers, OwnedGrant(remainders, lines, session, product));
      TotalAtMostOne(offers, OwnedLast(x, lines, session, product), x.granted);
      assert A.Granted(remainders)[..|front|] == A.Granted(front);
    }
  }

  lemma {:induction false} TotalLeq<T>(rows: seq<T>, f: T -> nat, g: T -> nat)
    requires forall i :: 0 <= i < |rows| ==> f(rows[i]) <= g(rows[i])
    ensures Total(rows, f) <= Total(rows, g)
  {
    if |rows| > 0 {
      TotalLeq(rows[..|rows| - 1], f, g);
    }
  }

  /** The kept holds are part of what the run allocates: the additional reservation is never negative,
  and no hold is kept for a product the run does not allocate. */
  lemma KeptFits(db: Db, session: Id, planned: seq<PlannedItem>, product: Id)
    requires OffersSound(db.offers, db.tickets, db.snapshots) && AllFeasible(db.tickets, planned) && ProductsDistinct(planned)
    ensures forall p :: p in planned && p.product == product ==>
      KeptFor(planned, db.offers, db.lines, session, product) <= Sum(A.Granted(p.out.remainders))
    ensures (forall p :: p in planned ==> p.product != product) ==> KeptFor(planned, db.offers, db.lines, session, product) == 0
  {
    hide GrantFor, Feasible, Total, Owned, TicketGrant;
    var kept := OwnedKept(planned, db.lines, session, product);
    forall o | o in db.offers && o.product == product
      ensures forall p :: p in planned && p.product == product ==> KeptOf(planned, o) <= TicketGrant(p.out.remainders, o.ticket)
      ensures (forall p :: p in planned ==> p.product != product) ==> KeptOf(planned, o) == 0
    {
      GrantComesFrom(db.tickets, planned, o.ticket);
    }
    assert forall i :: 0 <= i < |db.offers| ==> db.offers[i] in db.offers;
    forall p | p in planned && p.product == product
      ensures KeptFor(planned, db.offers, db.lines, session, product) <= Sum(A.Granted(p.out.remainders))
    {
      TotalLeq(db.offers, kept, OwnedGrant(p.out.remainders, db.lines, session, product));
      OffersShareGrants(db.offers, p.out.remainders, db.lines, session, product);
    }
    TotalZero(db.offers, kept);
  }
}
