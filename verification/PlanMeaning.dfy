/** What a plan of priority offers gives each ticket, told by the tickets, offers and snapshot it was
made from. */
module PlanMeaning {
  import opened Common
  import opened Quantities
  import opened Ordering
  import opened PriorityPlanning
  import opened PlanProperties

  /** Exactly the active tickets that lack something, have no pending offer and no confirmed one, and
  whose offer of this session is not made yet, may be offered, and for all they lack. */
  lemma WhoMayBeOffered(input: PlanInput, t: Ticket)
    ensures Offerable(input, t)
      <==> && t.status == Active && t.reserved < t.open
           && (forall o :: o in input.offers ==> o.id != input.offerId(t.id))
           && (forall o :: o in input.offers && o.ticket == t.id ==> o.status != Pending && (o.status == Confirmed ==> o.confirmed == 0))
    ensures Offerable(input, t) ==> Eligible(input, t) == t.open - t.reserved
  {
    var f := (o: Offer) => if o.ticket == t.id then Committed(o, input.createdAt) else 0;
    TotalZero(input.offers, f);
    assert forall i :: 0 <= i < |input.offers| ==> input.offers[i] in input.offers;
    forall o | o in input.offers ensures o.id in OfferIds(input.offers) && (o.status == Pending ==> o.ticket in Unsettled(input.offers)) {
    }
    if TicketClaim(input.offers, t.id, input.createdAt) == 0 {
      forall o | o in input.offers && o.ticket == t.id ensures Committed(o, input.createdAt) == 0 {
        var i :| 0 <= i < |input.offers| && input.offers[i] == o;
        assert f(input.offers[i]) == 0;
      }
    }
  }

  // ---------------------------------------------------------------------------------------------
  // What a ticket is offered
  // ---------------------------------------------------------------------------------------------

  /** Offered to a ticket by a plan. */
  function OfferedTo(plan: seq<PlannedOffer>, ticket: Id): nat {
    Total(plan, (x: PlannedOffer) => if x.offer.ticket == ticket then x.offer.offered else 0)
  }

  function SharedTo(shares: seq<Share>, ticket: Id): nat {
    Total(shares, (s: Share) => if s.ticket.id == ticket then s.quantity else 0)
  }

  lemma {:induction false} IntendedFor(input: PlanInput, shares: seq<Share>, ticket: Id)
    ensures OfferedTo(Intended(input, shares), ticket) == SharedTo(shares, ticket)
  {
    if |shares| > 0 {
      var front, last := shares[..|shares| - 1], shares[|shares| - 1];
      IntendedFor(input, front, ticket);
      var x := PlannedOffer(NewOffer(input, last.ticket, last.quantity), Eligible(input, last.ticket));
      assert Intended(input, shares) == Intended(input, front) + if last.quantity == 0 then [] else [x];
      TotalAppend(Intended(input, front), if last.quantity == 0 then [] else [x],
        (x: PlannedOffer) => if x.offer.ticket == ticket then x.offer.offered else 0);
    }
  }

  /** A ticket is offered its share of its product's queue. */
  lemma OfferedIsShare(input: PlanInput, t: Ticket) returns (i: nat)
    requires WellKeyed(input) && Plan(input).Success? && t in input.tickets && Offerable(input, t)
    ensures i < |Queue(input, t.product)| && Queue(input, t.product)[i] == t
    ensures OfferedTo(Plan(input).value, t.id) == Shares(input, t.product)[i]
  {
    hide Plan, Queue, Shares, Offerable, SharedTo, OfferedTo;
    var shares := AllShares(input);
    PlanByShares(input);
    IntendedFor(input, shares, t.id);
    QueueMembers(input, t.product);
    i :| 0 <= i < |Queue(input, t.product)| && Queue(input, t.product)[i] == t;
    ProductsMembers(input);
    SharesMembers(input, Products(input));
    var s := Share(t, Shares(input, t.product)[i]);
    ShareCounts(input, shares, s);
  }

  /** No ticket has two shares. */
  lemma ShareCounts(input: PlanInput, shares: seq<Share>, s: Share)
    requires UniqueTickets(input.tickets) && GoodShares(input, Products(input), shares) && s in shares
    ensures SharedTo(shares, s.ticket.id) == s.quantity
  {
    hide Offerable, Eligible, Products;
    var k :| 0 <= k < |shares| && shares[k] == s;
    UniqueTicketsAreDistinct(input.tickets);
    forall n | 0 <= n < |shares| && n != k ensures shares[n].ticket.id != s.ticket.id {
      assert shares[n] in shares;
    }
    TotalOnly(shares, k, (x: Share) => if x.ticket.id == s.ticket.id then x.quantity else 0);
  }

  /** The queue of a product follows the dates of the requests; then the stores, then the ids. */
  lemma QueueFollowsDates(input: PlanInput, product: Id, i: nat, j: nat)
    requires i < |Queue(input, product)| && j < |Queue(input, product)|
    requires var t, u := Queue(input, product)[i], Queue(input, product)[j];
      || t.requestedAt < u.requestedAt
      || (t.requestedAt == u.requestedAt && (t.store < u.store || (t.store == u.store && t.id < u.id)))
    ensures i < j
  {
    OrdersAreTotal();
    SortSorts(Group(input, input.tickets, product), QueueOrder);
    var queue := Queue(input, product);
    hide Queue;
    assert j < i ==> QueueOrder(queue[j], queue[i]);
  }

  /** Of two tickets of a product that may be offered, the one requested earlier - on the same date the
  one of the smaller store, then the one with the smaller id - is offered at least what the other is,
  up to all it lacks, and at most one unit more while the other lacks something. */
  lemma EarlierRequestIsServedFirst(input: PlanInput, t: Ticket, u: Ticket)
    requires WellKeyed(input) && Plan(input).Success? && t in input.tickets && u in input.tickets
    requires t.product == u.product && Offerable(input, t) && Offerable(input, u)
    requires
      || t.requestedAt < u.requestedAt
      || (t.requestedAt == u.requestedAt && (t.store < u.store || (t.store == u.store && t.id < u.id)))
    ensures var plan := Plan(input).value;
      && Min(t.open - t.reserved, OfferedTo(plan, u.id)) <= OfferedTo(plan, t.id)
      && (OfferedTo(plan, t.id) <= OfferedTo(plan, u.id) + 1 || OfferedTo(plan, u.id) == u.open - u.reserved)
  {
    WhoMayBeOffered(input, t);
    WhoMayBeOffered(input, u);
    hide Plan, Queue, Shares, Offerable, Eligible, OfferedTo;
    var i := OfferedIsShare(input, t);
    var j := OfferedIsShare(input, u);
    QueueFollowsDates(input, t.product, i, j);
    LongerWaitIsNotBehind(input, t.product, i, j);
  }

  // ---------------------------------------------------------------------------------------------
  // What a product offers
  // ---------------------------------------------------------------------------------------------

  /** Claimed of a product's stock by offers that its snapshot does not show as reserved: what is
  confirmed, and what is pending and can still be answered. */
  function ClaimedOf(input: PlanInput, product: Id): Offer -> nat {
    (o: Offer) =>
      if o.product != product || o.id in input.alreadyReserved then 0
      else if o.status == Confirmed then o.confirmed
      else if o.status == Pending && input.createdAt < o.expiresAt then o.offered
      else 0
  }

  ghost function LackedOf(input: PlanInput, product: Id): Ticket -> nat {
    (t: Ticket) => if t.product == product && Offerable(input, t) then t.open - t.reserved else 0
  }

  lemma StockIsUnclaimed(input: PlanInput, product: Id, k: nat)
    requires k < |input.snapshots| && input.snapshots[k].product == product
    requires forall n :: k < n < |input.snapshots| ==> input.snapshots[n].product != product
    ensures Stock(input, product) == Max(0, input.snapshots[k].available - Total(input.offers, ClaimedOf(input, product)))
  {
    LastRowCounts(input, product, k, |input.snapshots|);
    assert input.snapshots[..|input.snapshots|] == input.snapshots;
    TotalSame(input.offers, (o: Offer) => if o.product == product && o.id !in input.alreadyReserved then Committed(o, input.createdAt) else 0,
              input.offers, ClaimedOf(input, product));
  }

  lemma {:induction false} LastRowCounts(input: PlanInput, product: Id, k: nat, n: nat)
    requires k < n <= |input.snapshots| && input.snapshots[k].product == product
    requires forall m :: k < m < n ==> input.snapshots[m].product != product
    ensures StockIn(input, input.snapshots[..n], product)
         == Max(0, input.snapshots[k].available - ProductClaim(input.offers, input.alreadyReserved, product, input.createdAt))
  {
    hide ProductClaim;
    assert input.snapshots[..n][..n - 1] == input.snapshots[..n - 1];
    if k < n - 1 {
      LastRowCounts(input, product, k, n - 1);
    }
  }

  lemma {:induction false} SumOfClaims(input: PlanInput, queue: seq<Ticket>)
    ensures Sum(Claims(input, queue)) == Total(queue, (t: Ticket) => Eligible(input, t))
  {
    hide Eligible;
    if |queue| > 0 {
      var front := queue[..|queue| - 1];
      SumOfClaims(input, front);
      assert Claims(input, queue)[..|front|] == Claims(input, front);
    }
  }

  lemma QueueLacks(input: PlanInput, product: Id)
    ensures Sum(Claims(input, Queue(input, product))) == Total(input.tickets, LackedOf(input, product))
  {
    var f := (t: Ticket) => Eligible(input, t);
    var keep := (t: Ticket) => t.product == product && Offerable(input, t);
    SumOfClaims(input, Queue(input, product));
    SortPermutes(Group(input, input.tickets, product), QueueOrder);
    TotalPermute(Queue(input, product), Group(input, input.tickets, product), f);
    forall i | 0 <= i < |input.tickets| && Offerable(input, input.tickets[i])
      ensures Eligible(input, input.tickets[i]) == input.tickets[i].open - input.tickets[i].reserved
    {
      WhoMayBeOffered(input, input.tickets[i]);
    }
    hide Offerable, Eligible;
    TotalOfFilter(input.tickets, keep, f, LackedOf(input, product));
  }

  /** Of a product as much is offered as its snapshot shows beyond the claims on it, and no more than its
  tickets that may be offered lack together. */
  lemma UnclaimedStockIsOffered(input: PlanInput, product: Id, k: nat)
    requires WellKeyed(input) && Plan(input).Success?
    requires k < |input.snapshots| && input.snapshots[k].product == product
    requires forall n :: k < n < |input.snapshots| ==> input.snapshots[n].product != product
    ensures Total(Plan(input).value, (x: PlannedOffer) => if x.offer.product == product then x.offer.offered else 0)
         == Min(Max(0, input.snapshots[k].available - Total(input.offers, ClaimedOf(input, product))),
                Total(input.tickets, LackedOf(input, product)))
  {
    PlanUsesTheStock(input, product);
    StockIsUnclaimed(input, product, k);
    QueueLacks(input, product);
  }
}
