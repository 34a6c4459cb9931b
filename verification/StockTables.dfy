/** The tables shared by the allocation jobs, and what holds of them after every job and every answer.

Rows of a table are identified by their place in it.  Quantities are bags. */
module StockTables {
  import opened Common
  import opened Quantities
  import A = Allocation

  datatype Balance = Balance(onHand: nat, reserved: nat)

  type Balances = map<Id, Balance>

  datatype OfferStatus = Offered | Accepted | Declined | Expired | Withdrawn

  datatype OfferRow = OfferRow(
    id: Id, session: Id, ticket: nat, store: Id, product: Id, businessDate: int,
    offered: nat, eligible: nat, held: nat, accepted: nat,
    createdAt: Instant, deadline: Instant, status: OfferStatus)

  /** Folded: cancelled without a kind, because its demand was merged into another wait or corrected away. */
  datatype TicketStatus = Waiting | Fulfilled | Cancelled | Folded

  datatype TicketRow = TicketRow(
    store: Id, product: Id, original: nat, remaining: nat, fulfilled: nat, queuedAt: Instant, status: TicketStatus)

  /** One line of a run's result: for a source line of a request, or for an accepted offer. */
  datatype LineSource = ForRequest(line: Id) | ForOffer(ticket: nat, offer: Id)

  datatype LineRow = LineRow(run: Id, store: Id, product: Id, source: LineSource, requested: nat, granted: nat, waitlisted: nat)

  datatype ReservationStatus = Reserved | Issued

  datatype Reservation = Reservation(
    product: Id, store: Id, line: nat, quantity: nat, status: ReservationStatus, shipment: Option<nat>)

  datatype ShipmentRow = ShipmentRow(run: Id, store: Id, product: Id, quantity: nat)

  datatype SnapshotItem = SnapshotItem(product: Id, available: int)

  /** A product's part of a final run: what the allocator was given and what it answered. */
  datatype PlannedItem = PlannedItem(product: Id, input: A.Input, out: A.Allocation)

  datatype Db = Db(
    balances: Balances, offers: seq<OfferRow>, tickets: seq<TicketRow>, lines: seq<LineRow>,
    reservations: seq<Reservation>, shipments: seq<ShipmentRow>,
    snapshots: map<Id, seq<SnapshotItem>>, runs: map<Id, seq<PlannedItem>>,
    clock: Instant)

  const DAY: int := 86_400_000
  const UTC_OFFSET: int := 25_200_000

  /** The business date of an instant, as a number: the day in Ho Chi Minh City, seven hours ahead of UTC. */
  function BusinessDate(at: Instant): int {
    (at + UTC_OFFSET) / DAY
  }

  /** Day `d` begins seven hours before its midnight in UTC and lasts 86,400 seconds. */
  lemma DaysAreLocal(d: int, ms: int)
    requires 0 <= ms < 86_400_000
    ensures BusinessDate(d * 86_400_000 - 25_200_000 + ms) == d
  {
    assert (d * DAY + ms) / DAY == d;
  }

  // ---------------------------------------------------------------------------------------------
  // Movements
  // ---------------------------------------------------------------------------------------------

  /** A product without a balance row has an empty balance. */
  function BalanceOf(balances: Balances, product: Id): Balance {
    if product in balances then balances[product] else Balance(0, 0)
  }

  /** Every movement is checked: nothing negative, and never more reserved than on hand. */
  predicate Allowed(balances: Balances, product: Id, onHandDelta: int, reservedDelta: int) {
    var b := BalanceOf(balances, product);
    0 <= b.reserved + reservedDelta <= b.onHand + onHandDelta
  }

  function Moved(balances: Balances, product: Id, onHandDelta: int, reservedDelta: int): Balances
    requires Allowed(balances, product, onHandDelta, reservedDelta)
  {
    var b := BalanceOf(balances, product);
    balances[product := Balance(b.onHand + onHandDelta, b.reserved + reservedDelta)]
  }

  ghost predicate SameOnHand(a: Balances, b: Balances) {
    forall p :: BalanceOf(a, p).onHand == BalanceOf(b, p).onHand
  }

  // ---------------------------------------------------------------------------------------------
  // Sums over tables
  // ---------------------------------------------------------------------------------------------

  function HeldOf(product: Id): OfferRow -> nat {
    (o: OfferRow) => if o.product == product then o.held else 0
  }

  /** Stock held by the offers of a product. */
  function Held(offers: seq<OfferRow>, product: Id): nat {
    Total(offers, HeldOf(product))
  }

  function ReservedOf(product: Id): Reservation -> nat {
    (r: Reservation) => if r.product == product && r.status == Reserved then r.quantity else 0
  }

  /** Stock under active reservations of a product. */
  function ActivelyReserved(reservations: seq<Reservation>, product: Id): nat {
    Total(reservations, ReservedOf(product))
  }

  function LinkOf(shipment: nat): Reservation -> nat {
    (r: Reservation) => if r.shipment == Some(shipment) then r.quantity else 0
  }

  /** Goods riding on a shipment line. */
  function LinkedTo(reservations: seq<Reservation>, shipment: nat): nat {
    Total(reservations, LinkOf(shipment))
  }

  function DemandOf(store: Id, product: Id): TicketRow -> nat {
    (t: TicketRow) => if t.store == store && t.product == product then t.original else 0
  }

  /** Everything a store ever waited for, by product. */
  function Demanded(tickets: seq<TicketRow>, store: Id, product: Id): nat {
    Total(tickets, DemandOf(store, product))
  }

  function AtKey(m: map<Id, nat>, k: Id): nat {
    if k in m then m[k] else 0
  }

  // ---------------------------------------------------------------------------------------------
  // The invariant
  // ---------------------------------------------------------------------------------------------

  /** A product's reserved stock is what its reservations and its offers hold, and what a running job
  kept of converted holds; never more than is on hand. */
  ghost predicate Covered(balances: Balances, offers: seq<OfferRow>, reservations: seq<Reservation>, kept: map<Id, nat>, product: Id) {
    var b := BalanceOf(balances, product);
    b.reserved == ActivelyReserved(reservations, product) + Held(offers, product) + AtKey(kept, product) && b.reserved <= b.onHand
  }

  ghost predicate Stocked(balances: Balances, offers: seq<OfferRow>, reservations: seq<Reservation>, kept: map<Id, nat>) {
    forall p :: Covered(balances, offers, reservations, kept, p)
  }

  /** Only a live offer holds stock; an offer is for a ticket of its store and product. */
  ghost predicate OfferSound(o: OfferRow, tickets: seq<TicketRow>) {
    && (o.held > 0 ==> o.status == Offered || o.status == Accepted)
    && o.offered > 0 && (o.status == Accepted ==> o.accepted == o.offered)
    && o.ticket < |tickets| && tickets[o.ticket].store == o.store && tickets[o.ticket].product == o.product
  }

  /** An offer is of a product of its session's snapshot. */
  ghost predicate Listed(o: OfferRow, snapshots: map<Id, seq<SnapshotItem>>) {
    o.session in snapshots && HasProduct(snapshots[o.session], o.product)
  }

  predicate HasProduct(items: seq<SnapshotItem>, product: Id) {
    exists item :: item in items && item.product == product
  }

  ghost predicate OffersSound(offers: seq<OfferRow>, tickets: seq<TicketRow>, snapshots: map<Id, seq<SnapshotItem>>) {
    && (forall o :: o in offers ==> OfferSound(o, tickets) && Listed(o, snapshots))
    && (forall i, j :: 0 <= i < j < |offers| ==> offers[i].session != offers[j].session || offers[i].ticket != offers[j].ticket)
  }

  ghost predicate TicketSound(t: TicketRow) {
    && t.original == t.remaining + t.fulfilled
    && (t.status == Waiting || t.status == Folded ==> t.remaining > 0) && (t.status == Fulfilled ==> t.remaining == 0)
  }

  /** A ticket waits for what it does not have yet; a store waits for a product with one ticket. */
  ghost predicate TicketsSound(tickets: seq<TicketRow>) {
    && (forall t :: t in tickets ==> TicketSound(t))
    && (forall i, j :: 0 <= i < j < |tickets| && tickets[i].status == Waiting && tickets[j].status == Waiting ==>
          tickets[i].store != tickets[j].store || tickets[i].product != tickets[j].product)
  }

  /** A reservation holds what its line was granted, and rides on at most one shipment line. */
  ghost predicate ReservationSound(r: Reservation, lines: seq<LineRow>, shipments: seq<ShipmentRow>) {
    && r.line < |lines| && lines[r.line].granted == r.quantity
    && lines[r.line].store == r.store && lines[r.line].product == r.product
    && match r.shipment
       case None => true
       case Some(k) => k < |shipments| && shipments[k].store == r.store && shipments[k].product == r.product
  }

  /** Every line that grants something has exactly one reservation. */
  ghost predicate ReservationsSound(reservations: seq<Reservation>, lines: seq<LineRow>, shipments: seq<ShipmentRow>) {
    && (forall r :: r in reservations ==> ReservationSound(r, lines, shipments))
    && (forall i, j :: 0 <= i < j < |reservations| ==> reservations[i].line != reservations[j].line)
    && (forall k: nat :: k < |lines| && lines[k].granted > 0 ==> IsBacked(reservations, k))
  }

  ghost predicate IsBacked(reservations: seq<Reservation>, line: nat) {
    exists i :: 0 <= i < |reservations| && reservations[i].line == line
  }

  ghost predicate ShipmentsSound(reservations: seq<Reservation>, shipments: seq<ShipmentRow>) {
    forall k :: 0 <= k < |shipments| ==> shipments[k].quantity == LinkedTo(reservations, k)
  }

  ghost predicate SnapshotsSound(snapshots: map<Id, seq<SnapshotItem>>) {
    forall s :: s in snapshots ==> ItemsDistinct(snapshots[s])
  }

  ghost predicate ItemsDistinct(items: seq<SnapshotItem>) {
    forall i, j :: 0 <= i < j < |items| ==> items[i].product != items[j].product
  }

  // ---------------------------------------------------------------------------------------------
  // Claims on tickets
  // ---------------------------------------------------------------------------------------------

  predicate IsAllocated(lines: seq<LineRow>, offer: Id) {
    exists l :: l in lines && l.source.ForOffer? && l.source.offer == offer
  }

  /** An offer that still has a claim on its ticket. */
  predicate Live(o: OfferRow, lines: seq<LineRow>) {
    o.status == Offered || (o.status == Accepted && !IsAllocated(lines, o.id))
  }

  /** No ticket has two live offers. */
  ghost predicate OneLive(offers: seq<OfferRow>, lines: seq<LineRow>) {
    forall i, j :: 0 <= i < j < |offers| && Live(offers[i], lines) && Live(offers[j], lines) ==> offers[i].ticket != offers[j].ticket
  }

  /** The wait is open and at least as large as what was accepted. */
  predicate Stands(o: OfferRow, tickets: seq<TicketRow>) {
    o.ticket < |tickets| && tickets[o.ticket].status == Waiting && o.accepted <= tickets[o.ticket].remaining
  }

  /** Every offer that a run still has to allocate stands for its wait. */
  ghost predicate AcceptedStand(offers: seq<OfferRow>, lines: seq<LineRow>, tickets: seq<TicketRow>) {
    forall o :: o in offers && o.status == Accepted && !IsAllocated(lines, o.id) ==> Stands(o, tickets)
  }

  ghost predicate DistinctOffers(offers: seq<OfferRow>) {
    forall i, j :: 0 <= i < j < |offers| ==> offers[i].id != offers[j].id
  }

  ghost predicate IsKnown(offers: seq<OfferRow>, id: Id, ticket: nat) {
    exists o :: o in offers && o.id == id && o.ticket == ticket && o.status == Accepted
  }

  /** A result line of an offer names an accepted one. */
  ghost predicate LinesNamed(lines: seq<LineRow>, offers: seq<OfferRow>) {
    forall l :: l in lines && l.source.ForOffer? ==> IsKnown(offers, l.source.offer, l.source.ticket)
  }

  /** A result line of an offer is of its ticket's store and product. */
  ghost predicate LinesPlaced(lines: seq<LineRow>, tickets: seq<TicketRow>) {
    forall l :: l in lines && l.source.ForOffer? ==> IsPlaced(l, tickets)
  }

  ghost predicate IsPlaced(l: LineRow, tickets: seq<TicketRow>)
    requires l.source.ForOffer?
  {
    l.source.ticket < |tickets| && tickets[l.source.ticket].store == l.store && tickets[l.source.ticket].product == l.product
  }

  /** Offers are made on their business date, and none in the future. */
  ghost predicate Dated(offers: seq<OfferRow>, clock: Instant) {
    forall o :: o in offers ==> o.createdAt <= clock && BusinessDate(o.createdAt) == o.businessDate
  }

  /** A ticket has at most one live offer, and what was allocated was accepted for its ticket. */
  ghost predicate ClaimsSound(offers: seq<OfferRow>, lines: seq<LineRow>, tickets: seq<TicketRow>, clock: Instant) {
    && DistinctOffers(offers) && LinesNamed(lines, offers) && LinesPlaced(lines, tickets) && Dated(offers, clock)
    && OneLive(offers, lines)
  }

  ghost predicate Standing(db: Db) {
    AcceptedStand(db.offers, db.lines, db.tickets)
  }

  ghost predicate Inv(db: Db) {
    && Stocked(db.balances, db.offers, db.reservations, NOTHING)
    && OffersSound(db.offers, db.tickets, db.snapshots)
    && TicketsSound(db.tickets)
    && ReservationsSound(db.reservations, db.lines, db.shipments)
    && ShipmentsSound(db.reservations, db.shipments)
    && SnapshotsSound(db.snapshots)
    && ClaimsSound(db.offers, db.lines, db.tickets, db.clock)
  }

  // ---------------------------------------------------------------------------------------------
  // Single rows
  // ---------------------------------------------------------------------------------------------

  const NOTHING: map<Id, nat> := map[]

  /** An offer's hold shrinks, and so does the reserved balance. */
  lemma HoldChanged(balances: Balances, offers: seq<OfferRow>, reservations: seq<Reservation>, kept: map<Id, nat>,
                    i: nat, row: OfferRow)
    requires Stocked(balances, offers, reservations, kept)
    requires i < |offers| && row.product == offers[i].product && row.held <= offers[i].held
    ensures Allowed(balances, row.product, 0, row.held - offers[i].held)
    ensures Stocked(Moved(balances, row.product, 0, row.held - offers[i].held), offers[i := row], reservations, kept)
    ensures row.held == offers[i].held ==> Stocked(balances, offers[i := row], reservations, kept)
  {
    HoldKept(balances, offers, reservations, kept, i, row, 0);
    hide Total;
    var offers' := offers[i := row];
    var balances' := Moved(balances, row.product, 0, row.held - offers[i].held);
    forall q ensures Covered(balances', offers', reservations, kept, q)
      ensures row.held == offers[i].held ==> Covered(balances, offers', reservations, kept, q)
    {
      assert Covered(balances, offers, reservations, kept, q);
      TotalSet(offers, i, row, HeldOf(q));
    }
  }

  /** Part of a hold is kept by the job or by the offer, the rest returns to the free stock. */
  lemma HoldKept(balances: Balances, offers: seq<OfferRow>, reservations: seq<Reservation>, kept: map<Id, nat>,
                 i: nat, row: OfferRow, g: nat)
    requires Stocked(balances, offers, reservations, kept)
    requires i < |offers| && row.product == offers[i].product && row.held + g <= offers[i].held
    ensures Allowed(balances, row.product, 0, row.held + g - offers[i].held)
    ensures var kept' := kept[row.product := AtKey(kept, row.product) + g];
      && Stocked(Moved(balances, row.product, 0, row.held + g - offers[i].held), offers[i := row], reservations, kept')
      && (row.held + g == offers[i].held ==> Stocked(balances, offers[i := row], reservations, kept'))
  {
    hide Total;
    var p, offers' := row.product, offers[i := row];
    var kept' := kept[p := AtKey(kept, p) + g];
    assert Covered(balances, offers, reservations, kept, p);
    TotalAround(offers, i, HeldOf(p));
    var balances' := Moved(balances, p, 0, row.held + g - offers[i].held);
    forall q ensures Covered(balances', offers', reservations, kept', q)
      ensures row.held + g == offers[i].held ==> Covered(balances, offers', reservations, kept', q)
    {
      assert Covered(balances, offers, reservations, kept, q);
      TotalSet(offers, i, row, HeldOf(q));
    }
  }

  lemma HoldAdded(balances: Balances, offers: seq<OfferRow>, reservations: seq<Reservation>, kept: map<Id, nat>, row: OfferRow)
    requires Stocked(balances, offers, reservations, kept)
    requires BalanceOf(balances, row.product).reserved + row.held <= BalanceOf(balances, row.product).onHand
    ensures Allowed(balances, row.product, 0, row.held)
    ensures Stocked(Moved(balances, row.product, 0, row.held), offers + [row], reservations, kept)
  {
    var balances', offers' := Moved(balances, row.product, 0, row.held), offers + [row];
    forall q ensures Covered(balances', offers', reservations, kept, q) {
      assert Covered(balances, offers, reservations, kept, q);
      TotalPush(offers, row, HeldOf(q));
    }
  }

  /** Lines stay backed while reservations keep their lines. */
  lemma SameBacking(before: seq<Reservation>, after: seq<Reservation>)
    requires |after| == |before| && forall i :: 0 <= i < |after| ==> after[i].line == before[i].line
    ensures forall k: nat :: IsBacked(before, k) ==> IsBacked(after, k)
  {
    forall k: nat | IsBacked(before, k) ensures IsBacked(after, k) {
      var i :| 0 <= i < |before| && before[i].line == k;
      assert after[i].line == k;
    }
  }


  /** Reservations that do not change status, product or quantity leave the balances alone. */
  lemma {:induction false} SameReserved(a: seq<Reservation>, b: seq<Reservation>)
    requires |a| == |b|
    requires forall i :: 0 <= i < |a| ==> b[i] == a[i].(shipment := b[i].shipment)
    ensures forall p :: ActivelyReserved(a, p) == ActivelyReserved(b, p)
  {
    forall p ensures ActivelyReserved(a, p) == ActivelyReserved(b, p) {
      TotalSame(a, ReservedOf(p), b, ReservedOf(p));
    }
  }
}
