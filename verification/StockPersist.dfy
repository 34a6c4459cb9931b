/** What a final run writes: result lines and their reservations, tickets served, new waits. */
module StockPersist {
  import opened Common
  import opened Quantities
  import opened StockTables
  import opened StockRun
  import A = Allocation

  // ---------------------------------------------------------------------------------------------
  // Lines and reservations
  // ---------------------------------------------------------------------------------------------

  function GrantedAt(store: Id, product: Id): LineRow -> nat {
    (l: LineRow) => if l.store == store && l.product == product then l.granted else 0
  }

  function WaitlistedAt(store: Id, product: Id): LineRow -> nat {
    (l: LineRow) => if l.store == store && l.product == product then l.waitlisted else 0
  }

  /** Granted to a store of a product by all result lines. */
  function LineGrants(lines: seq<LineRow>, store: Id, product: Id): nat {
    Total(lines, GrantedAt(store, product))
  }

  function LineWaits(lines: seq<LineRow>, store: Id, product: Id): nat {
    Total(lines, WaitlistedAt(store, product))
  }

  function StoreGranted(store: Id): A.Remainder -> nat {
    (x: A.Remainder) => if x.demand.store == store then x.granted else 0
  }

  function StoreRemaining(store: Id): A.Remainder -> nat {
    (x: A.Remainder) => if x.demand.store == store then x.remaining else 0
  }

  function ItemGrants(store: Id, product: Id): PlannedItem -> nat {
    (p: PlannedItem) => if p.product == product then Total(p.out.remainders, StoreGranted(store)) else 0
  }

  function ItemWaits(store: Id, product: Id): PlannedItem -> nat {
    (p: PlannedItem) => if p.product == product then Total(p.out.remainders, StoreRemaining(store)) else 0
  }

  /** What a product's plan reserves. */
  function ItemReserved(product: Id): PlannedItem -> nat {
    (p: PlannedItem) => if p.product == product then Sum(A.Granted(p.out.remainders)) else 0
  }

  /** A line that grants something is backed by a reservation. */
  function ReservationOf(line: LineRow, at: nat): seq<Reservation> {
    if line.granted > 0 then [Reservation(line.product, line.store, at, line.granted, Reserved, None)] else []
  }

  lemma LineAdded(lines: seq<LineRow>, reservations: seq<Reservation>, shipments: seq<ShipmentRow>, line: LineRow)
    requires ReservationsSound(reservations, lines, shipments) && ShipmentsSound(reservations, shipments)
    ensures var after := reservations + ReservationOf(line, |lines|);
      && ReservationsSound(after, lines + [line], shipments) && ShipmentsSound(after, shipments)
      && (forall p :: ActivelyReserved(after, p) == ActivelyReserved(reservations, p) + if p == line.product then line.granted else 0)
    ensures forall s, p :: LineGrants(lines + [line], s, p)
                        == LineGrants(lines, s, p) + if s == line.store && p == line.product then line.granted else 0
    ensures forall s, p :: LineWaits(lines + [line], s, p)
                        == LineWaits(lines, s, p) + if s == line.store && p == line.product then line.waitlisted else 0
  {
    hide Total;
    var more, after := ReservationOf(line, |lines|), reservations + ReservationOf(line, |lines|);
    assert more == [] ==> after == reservations;
    forall p ensures ActivelyReserved(after, p) == ActivelyReserved(reservations, p) + if p == line.product then line.granted else 0 {
      if more != [] { TotalPush(reservations, more[0], ReservedOf(p)); }
    }
    forall s, p
      ensures LineGrants(lines + [line], s, p) == LineGrants(lines, s, p) + if s == line.store && p == line.product then line.granted else 0
      ensures LineWaits(lines + [line], s, p) == LineWaits(lines, s, p) + if s == line.store && p == line.product then line.waitlisted else 0
    {
      TotalPush(lines, line, GrantedAt(s, p));
      TotalPush(lines, line, WaitlistedAt(s, p));
    }
    forall k | 0 <= k < |shipments| ensures shipments[k].quantity == LinkedTo(after, k) {
      if more != [] { TotalPush(reservations, more[0], LinkOf(k)); }
    }
    forall r | r in after ensures ReservationSound(r, lines + [line], shipments) {
      if r in reservations {
        assert ReservationSound(r, lines, shipments);
      } else {
        assert r in more;
      }
    }
    forall i, j | 0 <= i < j < |after| ensures after[i].line != after[j].line {
      assert reservations[i] in reservations;
    }
    forall k: nat | k < |lines| + 1 && (lines + [line])[k].granted > 0 ensures IsBacked(after, k) {
      if k < |lines| {
        assert IsBacked(reservations, k);
        var i :| 0 <= i < |reservations| && reservations[i].line == k;
        assert after[i].line == k;
      } else {
        assert after[|reservations|].line == k;
      }
    }
  }

  // ---------------------------------------------------------------------------------------------
  // Tickets
  // ---------------------------------------------------------------------------------------------

  /** A ticket that is served; one that has everything is fulfilled. */
  function ServedTicket(t: TicketRow, g: nat): TicketRow
    requires g <= t.remaining
  {
    if g == 0 then t
    else t.(remaining := t.remaining - g, fulfilled := t.fulfilled + g, status := if g == t.remaining then Fulfilled else Waiting)
  }

  /** The tickets after the grants of these remainders. */
  function ServedTickets(tickets: seq<TicketRow>, remainders: seq<A.Remainder>): (r: seq<TicketRow>)
    requires forall t: nat :: t < |tickets| ==> TicketGrant(remainders, t) <= tickets[t].remaining
    ensures |r| == |tickets|
  {
    seq(|tickets|, t requires 0 <= t < |tickets| => ServedTicket(tickets[t], TicketGrant(remainders, t)))
  }

  lemma ServedAgain(t: TicketRow, g: nat, h: nat)
    requires g + h <= t.remaining && (g + h > 0 ==> t.status == Waiting)
    ensures ServedTicket(ServedTicket(t, g), h) == ServedTicket(t, g + h)
  {
  }

  lemma TicketServed(tickets: seq<TicketRow>, t: nat, g: nat)
    requires TicketsSound(tickets) && t < |tickets| && g <= tickets[t].remaining && (g > 0 ==> tickets[t].status == Waiting)
    ensures TicketsSound(tickets[t := ServedTicket(tickets[t], g)])
  {
    var after := tickets[t := ServedTicket(tickets[t], g)];
    assert tickets[t] in tickets;
    forall x | x in after ensures TicketSound(x) {
      if x != after[t] { assert x in tickets; }
    }
  }

  lemma {:induction false} GrantsSplit(remainders: seq<A.Remainder>, i: nat, ticket: Id)
    requires i < |remainders|
    ensures TicketGrant(remainders[..i + 1], ticket) == TicketGrant(remainders[..i], ticket) + GrantOf(ticket)(remainders[i])
    ensures TicketGrant(remainders[..i + 1], ticket) <= TicketGrant(remainders, ticket)
  {
    TotalTake(remainders, i, GrantOf(ticket));
    TotalAppend(remainders[..i + 1], remainders[i + 1..], GrantOf(ticket));
    assert remainders[..i + 1] + remainders[i + 1..] == remainders;
  }

  /** Serving the tickets of one product leaves the plans of other products feasible. */
  lemma OthersStayFeasible(tickets: seq<TicketRow>, product: Id, remainders: seq<A.Remainder>, other: Id, others: seq<A.Remainder>)
    requires Feasible(tickets, product, remainders) && Feasible(tickets, other, others) && other != product
    ensures Feasible(ServedTickets(tickets, remainders), other, others)
  {
    hide TicketGrant;
    assert forall t: nat :: t < |tickets| ==> GrantStands(tickets, t, TicketGrant(remainders, t));
    var after := ServedTickets(tickets, remainders);
    forall x | x in others ensures WaitMatches(after, other, x) {
      assert WaitMatches(tickets, other, x);
    }
    forall t: nat | t < |after| ensures GrantStands(after, t, TicketGrant(others, t)) {
      assert GrantStands(tickets, t, TicketGrant(others, t));
      if tickets[t].product == product {
        NoGrantElsewhere(tickets, other, others, t);
      } else {
        NoGrantElsewhere(tickets, product, remainders, t);
      }
    }
  }

  lemma NoGrantElsewhere(tickets: seq<TicketRow>, product: Id, remainders: seq<A.Remainder>, t: nat)
    requires Feasible(tickets, product, remainders) && t < |tickets| && tickets[t].product != product
    ensures TicketGrant(remainders, t) == 0
  {
    TotalZero(remainders, GrantOf(t));
    forall i | 0 <= i < |remainders| ensures GrantOf(t)(remainders[i]) == 0 {
      assert WaitMatches(tickets, product, remainders[i]);
    }
  }

  /** One more remainder serves one more ticket, or none. */
  lemma NextServed(tickets: seq<TicketRow>, product: Id, remainders: seq<A.Remainder>, i: nat)
    requires Feasible(tickets, product, remainders) && i < |remainders|
    ensures forall t: nat :: t < |tickets| ==> TicketGrant(remainders[..i], t) <= TicketGrant(remainders[..i + 1], t) <= tickets[t].remaining
    ensures var before, x := ServedTickets(tickets, remainders[..i]), remainders[i];
      ServedTickets(tickets, remainders[..i + 1]) ==
      match x.demand.source
      case ConfirmedWait(t) =>
        if 0 <= t < |before| && x.granted <= before[t].remaining then before[t := ServedTicket(before[t], x.granted)] else before
      case _ => before
    ensures var before, x := ServedTickets(tickets, remainders[..i]), remainders[i];
      x.demand.source.ConfirmedWait? ==>
        var t := x.demand.source.ticket;
        && 0 <= t < |before| && x.granted <= before[t].remaining && (x.granted > 0 ==> before[t].status == Waiting)
        && before[t].product == product && before[t].store == x.demand.store
  {
    hide TicketGrant;
    var x := remainders[i];
    assert WaitMatches(tickets, product, x);
    forall t: nat | t < |tickets|
      ensures TicketGrant(remainders[..i + 1], t) == TicketGrant(remainders[..i], t) + GrantOf(t)(x)
      ensures TicketGrant(remainders[..i + 1], t) <= tickets[t].remaining
      ensures TicketGrant(remainders[..i + 1], t) > 0 ==> tickets[t].status == Waiting
    {
      GrantsSplit(remainders, i, t);
      assert GrantStands(tickets, t, TicketGrant(remainders, t));
    }
    var before, after := ServedTickets(tickets, remainders[..i]), ServedTickets(tickets, remainders[..i + 1]);
    forall t | 0 <= t < |tickets| ensures after[t] == ServedTicket(before[t], GrantOf(t)(x)) {
      ServedAgain(tickets[t], TicketGrant(remainders[..i], t), GrantOf(t)(x));
    }
  }

  // ---------------------------------------------------------------------------------------------
  // New waits
  // ---------------------------------------------------------------------------------------------

  datatype WaitRemainder = WaitRemainder(store: Id, product: Id, quantity: nat)

  /** What the requests of a product did not get. */
  function WaitRemainders(product: Id, remainders: seq<A.Remainder>): seq<WaitRemainder> {
    if |remainders| == 0 then []
    else
      var x := remainders[|remainders| - 1];
      WaitRemainders(product, remainders[..|remainders| - 1])
      + if !x.demand.source.ConfirmedWait? && x.remaining > 0 then [WaitRemainder(x.demand.store, product, x.remaining)] else []
  }

  function AllWaitRemainders(planned: seq<PlannedItem>): seq<WaitRemainder> {
    if |planned| == 0 then []
    else
      var p := planned[|planned| - 1];
      AllWaitRemainders(planned[..|planned| - 1]) + WaitRemainders(p.product, p.out.remainders)
  }

  function WaitOf(store: Id, product: Id): WaitRemainder -> nat {
    (w: WaitRemainder) => if w.store == store && w.product == product then w.quantity else 0
  }

  function OrderWait(store: Id): A.Remainder -> nat {
    (x: A.Remainder) => if x.demand.store == store && !x.demand.source.ConfirmedWait? then x.remaining else 0
  }

  function ItemOrderWaits(store: Id, product: Id): PlannedItem -> nat {
    (p: PlannedItem) => if p.product == product then Total(p.out.remainders, OrderWait(store)) else 0
  }

  lemma {:induction false} WaitRemaindersTotal(product: Id, remainders: seq<A.Remainder>, s: Id, p: Id)
    ensures Total(WaitRemainders(product, remainders), WaitOf(s, p)) == if p == product then Total(remainders, OrderWait(s)) else 0
    ensures forall w :: w in WaitRemainders(product, remainders) ==> w.quantity > 0
  {
    if |remainders| > 0 {
      var front, x := remainders[..|remainders| - 1], remainders[|remainders| - 1];
      var before := WaitRemainders(product, front);
      WaitRemaindersTotal(product, front, s, p);
      if !x.demand.source.ConfirmedWait? && x.remaining > 0 {
        TotalPush(before, WaitRemainder(x.demand.store, product, x.remaining), WaitOf(s, p));
      } else {
        assert WaitRemainders(product, remainders) == before;
      }
    }
  }

  /** The new waits of a run are exactly what its requests did not get. */
  lemma {:induction false} AllWaitRemaindersTotal(planned: seq<PlannedItem>, s: Id, p: Id)
    ensures Total(AllWaitRemainders(planned), WaitOf(s, p)) == Total(planned, ItemOrderWaits(s, p))
    ensures forall w :: w in AllWaitRemainders(planned) ==> w.quantity > 0
  {
    hide WaitRemainders;
    if |planned| > 0 {
      var front, last := planned[..|planned| - 1], planned[|planned| - 1];
      AllWaitRemaindersTotal(front, s, p);
      WaitRemaindersTotal(last.product, last.out.remainders, s, p);
      TotalAppend(AllWaitRemainders(front), WaitRemainders(last.product, last.out.remainders), WaitOf(s, p));
    }
  }

  /** More of the same wait. */
  lemma WaitGrown(tickets: seq<TicketRow>, t: nat, g: nat)
    requires TicketsSound(tickets) && t < |tickets| && tickets[t].status == Waiting
    ensures var x := tickets[t]; var after := tickets[t := x.(original := x.original + g, remaining := x.remaining + g)];
      && TicketsSound(after)
      && forall s, p :: Demanded(after, s, p) == Demanded(tickets, s, p) + if s == x.store && p == x.product then g else 0
  {
    hide Total;
    var x := tickets[t];
    var row := x.(original := x.original + g, remaining := x.remaining + g);
    var after := tickets[t := row];
    assert x in tickets;
    forall y | y in after ensures TicketSound(y) {
      if y != row { assert y in tickets; }
    }
    forall s, p ensures Demanded(after, s, p) == Demanded(tickets, s, p) + if s == x.store && p == x.product then g else 0 {
      TotalSet(tickets, t, row, DemandOf(s, p));
    }
  }

  /** A first wait of a store for a product. */
  lemma WaitOpened(tickets: seq<TicketRow>, row: TicketRow)
    requires TicketsSound(tickets) && TicketSound(row)
    requires forall t :: 0 <= t < |tickets| && tickets[t].status == Waiting ==>
      tickets[t].store != row.store || tickets[t].product != row.product
    ensures TicketsSound(tickets + [row])
    ensures forall s, p :: Demanded(tickets + [row], s, p)
                        == Demanded(tickets, s, p) + if s == row.store && p == row.product then row.original else 0
  {
    forall s, p
      ensures Demanded(tickets + [row], s, p) == Demanded(tickets, s, p) + if s == row.store && p == row.product then row.original else 0
    {
      TotalPush(tickets, row, DemandOf(s, p));
    }
  }

  // ---------------------------------------------------------------------------------------------
  // The additional reservation
  // ---------------------------------------------------------------------------------------------

  /** What a plan adds to the reserved stock still fits, and covers what was kept for it. */
  ghost predicate Room(balances: Balances, kept: map<Id, nat>, p: PlannedItem) {
    && BalanceOf(balances, p.product).reserved + p.out.granted <= BalanceOf(balances, p.product).onHand + AtKey(kept, p.product)
    && AtKey(kept, p.product) <= p.out.granted
  }

  /** After the reservations of a plan are written, the additional reservation balances the books. */
  lemma ReservationBooked(balances: Balances, offers: seq<OfferRow>, before: seq<Reservation>, after: seq<Reservation>,
                          kept: map<Id, nat>, p: PlannedItem)
    requires Stocked(balances, offers, before, kept) && Room(balances, kept, p)
    requires forall q :: ActivelyReserved(after, q) == ActivelyReserved(before, q) + if q == p.product then p.out.granted else 0
    ensures var additional := p.out.granted - AtKey(kept, p.product);
      && additional >= 0 && Allowed(balances, p.product, 0, additional)
      && Stocked(Moved(balances, p.product, 0, additional), offers, after, kept[p.product := 0])
      && (additional == 0 ==> Stocked(balances, offers, after, kept[p.product := 0]))
  {
    hide ActivelyReserved, Held;
    var additional, kept' := p.out.granted - AtKey(kept, p.product), kept[p.product := 0];
    var balances' := Moved(balances, p.product, 0, additional);
    assert Covered(balances, offers, before, kept, p.product);
    forall q ensures Covered(balances', offers, after, kept', q)
      ensures additional == 0 ==> Covered(balances, offers, after, kept', q)
    {
      assert Covered(balances, offers, before, kept, q);
    }
  }

  /** Once every plan is booked, nothing is kept any more. */
  lemma NothingKept(balances: Balances, offers: seq<OfferRow>, reservations: seq<Reservation>, kept: map<Id, nat>)
    requires Stocked(balances, offers, reservations, kept) && forall p :: AtKey(kept, p) == 0
    ensures Stocked(balances, offers, reservations, NOTHING)
  {
    hide ActivelyReserved, Held;
    forall p ensures Covered(balances, offers, reservations, NOTHING, p) {
      assert Covered(balances, offers, reservations, kept, p);
    }
  }
}
