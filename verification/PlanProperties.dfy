/** What the priority plan promises, for every input. */
module PlanProperties {
  import opened Common
  import opened Quantities
  import opened WaterFill
  import opened Ordering
  import opened PriorityPlanning

  /** Offer ids are derived from the session and the ticket, so different tickets get different ids. */
  ghost predicate InjectiveIds(input: PlanInput) {
    forall t, t' :: input.offerId(t) == input.offerId(t') ==> t == t'
  }

  ghost predicate WellKeyed(input: PlanInput) {
    UniqueTickets(input.tickets) && InjectiveIds(input)
  }

  // ---------------------------------------------------------------------------------------------
  // Queues and shares
  // ---------------------------------------------------------------------------------------------

  lemma QueueMembers(input: PlanInput, product: Id)
    ensures forall t ::
      t in Queue(input, product) <==> t in input.tickets && t.product == product && Offerable(input, t)
  {
    var keep := (t: Ticket) => t.product == product && Offerable(input, t);
    SortPermutes(Group(input, input.tickets, product), QueueOrder);
    SameElements(Queue(input, product), Group(input, input.tickets, product));
    forall t ensures t in Queue(input, product) <==> t in input.tickets && keep(t) {
      FilterCounts(input.tickets, keep, t);
    }
  }

  lemma UniqueTicketsAreDistinct(tickets: seq<Ticket>)
    requires UniqueTickets(tickets)
    ensures Distinct(tickets)
    ensures forall t, t' :: t in tickets && t' in tickets && t.id == t'.id ==> t == t'
  {
  }

  lemma QueueDistinct(input: PlanInput, product: Id)
    requires UniqueTickets(input.tickets)
    ensures Distinct(Queue(input, product))
  {
    UniqueTicketsAreDistinct(input.tickets);
    FilterDistinct(input.tickets, (t: Ticket) => t.product == product && Offerable(input, t));
    SortKeepsDistinct(Group(input, input.tickets, product), QueueOrder);
  }

  lemma {:induction false} GroupProductsMembers(input: PlanInput, tickets: seq<Ticket>)
    ensures Distinct(GroupProducts(input, tickets))
    ensures forall p ::
      p in GroupProducts(input, tickets) <==> (exists t :: t in tickets && t.product == p && Offerable(input, t))
  {
    if |tickets| > 0 {
      var front, last := tickets[..|tickets| - 1], tickets[|tickets| - 1];
      GroupProductsMembers(input, front);
      assert tickets == front + [last];
    }
  }

  lemma ProductsMembers(input: PlanInput)
    ensures Distinct(Products(input))
    ensures forall p ::
      p in Products(input) <==> (exists t :: t in input.tickets && t.product == p && Offerable(input, t))
  {
    GroupProductsMembers(input, input.tickets);
    SortKeepsDistinct(GroupProducts(input, input.tickets), IdOrder);
  }

  /** The shares name offerable tickets of the listed products, no ticket twice, none beyond its claim. */
  ghost predicate GoodShares(input: PlanInput, products: seq<Id>, shares: seq<Share>) {
    && (forall s :: s in shares ==>
          && s.ticket in input.tickets && Offerable(input, s.ticket)
          && s.ticket.product in products && s.quantity <= Eligible(input, s.ticket))
    && (forall i, j :: 0 <= i < j < |shares| ==> shares[i].ticket != shares[j].ticket)
  }

  lemma ZipIsGood(input: PlanInput, product: Id)
    requires UniqueTickets(input.tickets)
    ensures GoodShares(input, [product], Zip(Queue(input, product), Shares(input, product)))
  {
    var queue, q := Queue(input, product), Shares(input, product);
    QueueMembers(input, product);
    QueueDistinct(input, product);
    forall s | s in Zip(queue, q)
      ensures s.ticket in input.tickets && Offerable(input, s.ticket)
      ensures s.ticket.product in [product] && s.quantity <= Eligible(input, s.ticket)
    {
      var i :| 0 <= i < |queue| && Zip(queue, q)[i] == s;
      assert queue[i] in queue && q[i] <= Claims(input, queue)[i];
    }
  }

  lemma {:induction false} SharesAreGood(input: PlanInput, products: seq<Id>)
    requires UniqueTickets(input.tickets) && Distinct(products)
    ensures GoodShares(input, products, SharesOf(input, products))
  {
    if |products| > 0 {
      var front, last := products[..|products| - 1], products[|products| - 1];
      assert products == front + [last];
      assert forall k :: 0 <= k < |front| ==> products[k] == front[k];
      assert last !in front;
      SharesAreGood(input, front);
      ZipIsGood(input, last);
      var a, b := SharesOf(input, front), Zip(Queue(input, last), Shares(input, last));
      assert SharesOf(input, products) == a + b;
      forall i, j | 0 <= i < |a| && 0 <= j < |b|
        ensures a[i].ticket != b[j].ticket
      {
        assert a[i] in a && b[j] in b;
      }
      forall s | s in a + b
        ensures s.ticket in input.tickets && Offerable(input, s.ticket)
        ensures s.ticket.product in products && s.quantity <= Eligible(input, s.ticket)
      {
        assert s in a || s in b;
      }
    }
  }

  // ---------------------------------------------------------------------------------------------
  // When the plan succeeds, and what it then is
  // ---------------------------------------------------------------------------------------------

  /** Another offer of the same ticket and date was already accepted: the domain refuses a second. */
  ghost predicate AcceptedToday(input: PlanInput, ticket: Ticket) {
    exists o :: o in input.offers && o.ticket == ticket.id && o.businessDate == input.businessDate
             && (o.status == Consumed || o.status == Confirmed)
  }

  ghost predicate Accepts(input: PlanInput, share: Share) {
    share.quantity == 0 || (input.createdAt < input.expiresAt && !AcceptedToday(input, share.ticket))
  }

  function Intended(input: PlanInput, shares: seq<Share>): seq<PlannedOffer> {
    if |shares| == 0 then []
    else
      var last := shares[|shares| - 1];
      Intended(input, shares[..|shares| - 1]) +
      if last.quantity == 0 then []
      else [PlannedOffer(NewOffer(input, last.ticket, last.quantity), Eligible(input, last.ticket))]
  }

  lemma {:induction false} IntendedMembers(input: PlanInput, shares: seq<Share>)
    ensures forall x :: x in Intended(input, shares) ==>
      exists s :: s in shares && s.quantity > 0
        && x == PlannedOffer(NewOffer(input, s.ticket, s.quantity), Eligible(input, s.ticket))
    ensures forall s :: s in shares && s.quantity > 0 ==>
      PlannedOffer(NewOffer(input, s.ticket, s.quantity), Eligible(input, s.ticket)) in Intended(input, shares)
  {
    if |shares| > 0 {
      IntendedMembers(input, shares[..|shares| - 1]);
      assert shares == shares[..|shares| - 1] + [shares[|shares| - 1]];
    }
  }

  lemma {:induction false} IntendedClaimsNothingElse(input: PlanInput, shares: seq<Share>, ticket: Id)
    requires forall s :: s in shares ==> s.ticket.id != ticket
    ensures forall o :: o in Offers(Intended(input, shares)) ==> o.ticket != ticket
  {
    IntendedMembers(input, shares);
    forall o | o in Offers(Intended(input, shares)) ensures o.ticket != ticket {
      var k :| 0 <= k < |Intended(input, shares)| && Offers(Intended(input, shares))[k] == o;
      assert Intended(input, shares)[k] in Intended(input, shares);
    }
  }

  lemma {:induction false} NoClaim(offers: seq<Offer>, ticket: Id, at: Instant)
    requires forall o :: o in offers ==> o.ticket != ticket
    ensures TicketClaim(offers, ticket, at) == 0
  {
    TotalZero(offers, (o: Offer) => if o.ticket == ticket then Committed(o, at) else 0);
  }

  /** What the domain's checks leave open for a share of the plan. */
  lemma OneOffer(input: PlanInput, share: Share, before: seq<Share>)
    requires WellKeyed(input)
    requires share.ticket in input.tickets && Offerable(input, share.ticket)
    requires 0 < share.quantity <= Eligible(input, share.ticket)
    requires forall s :: s in before ==> s.ticket.id != share.ticket.id
    ensures var r := CreateDailyPriorityOffer(
                input, share.ticket, input.offers + Offers(Intended(input, before)), share.quantity);
            && (r.Success? <==> Accepts(input, share))
            && (r.Success? ==> r.value == NewOffer(input, share.ticket, share.quantity))
            && (r.Failure? ==> r.error in {OfferAlreadyExists, InvalidPeriod})
  {
    var ticket, made := share.ticket, Offers(Intended(input, before));
    var existing := input.offers + made;
    IntendedMembers(input, before);
    IntendedClaimsNothingElse(input, before, ticket.id);
    NoClaim(made, ticket.id, input.createdAt);
    TotalAppend(input.offers, made, (o: Offer) => if o.ticket == ticket.id then Committed(o, input.createdAt) else 0);
    assert forall o :: o in made ==> o.id != input.offerId(ticket.id) by {
      forall o | o in made ensures o.id != input.offerId(ticket.id) {
        var k :| 0 <= k < |made| && made[k] == o;
        assert Intended(input, before)[k] in Intended(input, before);
      }
    }
    forall o | o in input.offers && o.ticket == ticket.id ensures o.status != Pending {
      assert o.status == Pending ==> o.ticket in Unsettled(input.offers);
    }
    assert forall o :: o in input.offers ==> o.id in OfferIds(input.offers);
    assert AcceptedToday(input, ticket) <==>
      exists o :: o in existing && Effective(o, ticket.id, input.businessDate, input.createdAt) by {
      if AcceptedToday(input, ticket) {
        var o :| o in input.offers && o.ticket == ticket.id && o.businessDate == input.businessDate
              && (o.status == Consumed || o.status == Confirmed);
        assert o in existing && Effective(o, ticket.id, input.businessDate, input.createdAt);
      }
    }
  }

  lemma {:induction false} EmitOutcome(input: PlanInput, products: seq<Id>, shares: seq<Share>)
    requires WellKeyed(input) && GoodShares(input, products, shares)
    ensures Emit(input, shares).Success? <==> forall s :: s in shares ==> Accepts(input, s)
    ensures Emit(input, shares).Success? ==> Emit(input, shares).value == Intended(input, shares)
    ensures Emit(input, shares).Failure? ==> Emit(input, shares).error in {OfferAlreadyExists, InvalidPeriod}
  {
    if |shares| > 0 {
      var front, last := shares[..|shares| - 1], shares[|shares| - 1];
      assert shares == front + [last];
      assert forall s :: s in shares <==> s in front || s == last;
      EmitOutcome(input, products, front);
      if last.quantity > 0 {
        UniqueTicketsAreDistinct(input.tickets);
        OneOffer(input, last, front);
      }
    }
  }

  /** The plan succeeds exactly when every positive share can be offered; it then consists of one offer
  per positive share. */
  lemma PlanByShares(input: PlanInput)
    requires WellKeyed(input)
    ensures GoodShares(input, Products(input), AllShares(input))
    ensures Plan(input).Success? <==> forall s :: s in AllShares(input) ==> Accepts(input, s)
    ensures Plan(input).Success? ==> Plan(input).value == Intended(input, AllShares(input))
    ensures Plan(input).Failure? ==> Plan(input).error in {OfferAlreadyExists, InvalidPeriod}
  {
    ProductsMembers(input);
    SharesAreGood(input, Products(input));
    EmitOutcome(input, Products(input), AllShares(input));
  }

  ghost predicate NoTicketTwice(plan: seq<PlannedOffer>) {
    forall i, j :: 0 <= i < j < |plan| ==> plan[i].offer.ticket != plan[j].offer.ticket
  }

  /** Every ticket is offered at most once, never one with a live claim of another session, never
  more than it waits for; the offer carries the session's dates and the ticket's store and product. */
  lemma PlanOffersAreSound(input: PlanInput)
    requires WellKeyed(input) && Plan(input).Success?
    ensures var plan := Plan(input).value;
      && NoTicketTwice(plan)
      && (forall x :: x in plan ==>
            && 0 < x.offer.offered <= x.eligibleAtOffer
            && x.offer.status == Pending && x.offer.confirmed == 0
            && x.offer.createdAt == input.createdAt < input.expiresAt == x.offer.expiresAt
            && x.offer.businessDate == input.businessDate
            && x.offer.id == input.offerId(x.offer.ticket) && x.offer.id !in OfferIds(input.offers)
            && (exists t :: t in input.tickets && t.status == Active && t.id == x.offer.ticket
                  && t.store == x.offer.store && t.product == x.offer.product
                  && t.reserved + x.eligibleAtOffer == t.open)
            && (forall o :: o in input.offers && o.ticket == x.offer.ticket ==>
                  o.status != Pending && (o.status == Confirmed ==> o.confirmed == 0)))
  {
    PlanByShares(input);
    var shares := AllShares(input);
    IntendedMembers(input, shares);
    IntendedTicketsDistinct(input, shares);
    forall x | x in Intended(input, shares)
      ensures exists t :: t in input.tickets && t.status == Active && t.id == x.offer.ticket
                && t.store == x.offer.store && t.product == x.offer.product
                && t.reserved + x.eligibleAtOffer == t.open
      ensures 0 < x.offer.offered <= x.eligibleAtOffer
      ensures forall o :: o in input.offers && o.ticket == x.offer.ticket ==>
                o.status != Pending && (o.status == Confirmed ==> o.confirmed == 0)
    {
      var s :| s in shares && s.quantity > 0
        && x == PlannedOffer(NewOffer(input, s.ticket, s.quantity), Eligible(input, s.ticket));
      OfferableHasNoLiveClaim(input, s.ticket);
      assert Accepts(input, s);
    }
    forall x | x in Intended(input, shares) ensures input.createdAt < input.expiresAt {
      var s :| s in shares && s.quantity > 0
        && x == PlannedOffer(NewOffer(input, s.ticket, s.quantity), Eligible(input, s.ticket));
      assert Accepts(input, s);
    }
  }

  lemma OfferableHasNoLiveClaim(input: PlanInput, ticket: Ticket)
    requires Offerable(input, ticket)
    ensures forall o :: o in input.offers && o.ticket == ticket.id ==>
      o.status != Pending && (o.status == Confirmed ==> o.confirmed == 0)
  {
    var f := (o: Offer) => if o.ticket == ticket.id then Committed(o, input.createdAt) else 0;
    assert TicketClaim(input.offers, ticket.id, input.createdAt) == Total(input.offers, f);
    TotalZero(input.offers, f);
    forall o | o in input.offers && o.ticket == ticket.id
      ensures o.status != Pending && (o.status == Confirmed ==> o.confirmed == 0)
    {
      var k :| 0 <= k < |input.offers| && input.offers[k] == o;
      assert f(input.offers[k]) == 0;
      assert o.status == Pending ==> o.ticket in Unsettled(input.offers);
    }
  }

  lemma {:induction false} IntendedTicketsDistinct(input: PlanInput, shares: seq<Share>)
    requires UniqueTickets(input.tickets)
    requires forall s :: s in shares ==> s.ticket in input.tickets
    requires forall i, j :: 0 <= i < j < |shares| ==> shares[i].ticket != shares[j].ticket
    ensures NoTicketTwice(Intended(input, shares))
  {
    if |shares| > 0 {
      var front, last := shares[..|shares| - 1], shares[|shares| - 1];
      assert shares == front + [last];
      IntendedTicketsDistinct(input, front);
      UniqueTicketsAreDistinct(input.tickets);
      var r := Intended(input, front);
      IntendedClaimsNothingElse(input, front, last.ticket.id);
      forall i | 0 <= i < |r| ensures r[i].offer.ticket != last.ticket.id {
        assert Offers(r)[i] in Offers(r);
      }
      if last.quantity > 0 {
        var x := PlannedOffer(NewOffer(input, last.ticket, last.quantity), Eligible(input, last.ticket));
        assert Intended(input, shares) == r + [x];
      }
    }
  }

  // ---------------------------------------------------------------------------------------------
  // How much is offered
  // ---------------------------------------------------------------------------------------------

  function PlannedFor(plan: seq<PlannedOffer>, product: Id): nat {
    Total(plan, (x: PlannedOffer) => if x.offer.product == product then x.offer.offered else 0)
  }

  function SharedFor(shares: seq<Share>, product: Id): nat {
    Total(shares, (s: Share) => if s.ticket.product == product then s.quantity else 0)
  }

  lemma {:induction false} IntendedTotal(input: PlanInput, shares: seq<Share>, product: Id)
    ensures PlannedFor(Intended(input, shares), product) == SharedFor(shares, product)
  {
    if |shares| > 0 {
      var front, last := shares[..|shares| - 1], shares[|shares| - 1];
      IntendedTotal(input, front, product);
      var x := PlannedOffer(NewOffer(input, last.ticket, last.quantity), Eligible(input, last.ticket));
      assert Intended(input, shares) == Intended(input, front) + if last.quantity == 0 then [] else [x];
      TotalAppend(Intended(input, front), if last.quantity == 0 then [] else [x],
        (x: PlannedOffer) => if x.offer.product == product then x.offer.offered else 0);
    }
  }

  lemma {:induction false} ZipTotal(queue: seq<Ticket>, q: seq<nat>, product: Id, mine: bool)
    requires |q| == |queue|
    requires forall t :: t in queue ==> (t.product == product <==> mine)
    ensures SharedFor(Zip(queue, q), product) == if mine then Sum(q) else 0
  {
    if |queue| > 0 {
      var n := |queue| - 1;
      ZipTotal(queue[..n], q[..n], product, mine);
      assert queue[n] in queue;
      assert Zip(queue, q)[..n] == Zip(queue[..n], q[..n]);
    }
  }

  lemma {:induction false} SharesTotal(input: PlanInput, products: seq<Id>, product: Id)
    requires Distinct(products)
    ensures SharedFor(SharesOf(input, products), product)
         == if product in products then Sum(Shares(input, product)) else 0
  {
    hide Queue, Shares, Zip, Sum;
    if |products| > 0 {
      var front, last := products[..|products| - 1], products[|products| - 1];
      assert products == front + [last];
      assert forall k :: 0 <= k < |front| ==> products[k] == front[k];
      SharesTotal(input, front, product);
      QueueMembers(input, last);
      ZipTotal(Queue(input, last), Shares(input, last), product, last == product);
      TotalAppend(SharesOf(input, front), Zip(Queue(input, last), Shares(input, last)),
        (s: Share) => if s.ticket.product == product then s.quantity else 0);
    }
  }

  lemma EmptyQueue(input: PlanInput, product: Id)
    requires product !in Products(input)
    ensures Queue(input, product) == []
  {
    ProductsMembers(input);
    QueueMembers(input, product);
    if Queue(input, product) != [] { HasMember(Queue(input, product)); }
  }

  /** For every product exactly as much is offered as stock and eligible tickets allow. */
  lemma PlanUsesTheStock(input: PlanInput, product: Id)
    requires WellKeyed(input) && Plan(input).Success?
    ensures PlannedFor(Plan(input).value, product) == Sum(Shares(input, product))
    ensures PlannedFor(Plan(input).value, product)
         == Min(Stock(input, product), Sum(Claims(input, Queue(input, product))))
  {
    PlanByShares(input);
    IntendedTotal(input, AllShares(input), product);
    ProductsMembers(input);
    SharesTotal(input, Products(input), product);
    if product !in Products(input) {
      EmptyQueue(input, product);
    }
  }

  // ---------------------------------------------------------------------------------------------
  // Planning again
  // ---------------------------------------------------------------------------------------------

  lemma {:induction false} SharesMembers(input: PlanInput, products: seq<Id>)
    ensures forall p, i :: p in products && 0 <= i < |Queue(input, p)| ==>
      Share(Queue(input, p)[i], Shares(input, p)[i]) in SharesOf(input, products)
    ensures forall s :: s in SharesOf(input, products) ==>
      exists p, i :: p in products && 0 <= i < |Queue(input, p)|
        && s == Share(Queue(input, p)[i], Shares(input, p)[i])
  {
    if |products| > 0 {
      var front, last := products[..|products| - 1], products[|products| - 1];
      assert products == front + [last];
      SharesMembers(input, front);
      var zip := Zip(Queue(input, last), Shares(input, last));
      forall i | 0 <= i < |zip| ensures zip[i] in SharesOf(input, products) {
      }
      assert forall i :: 0 <= i < |zip| ==> zip[i] == Share(Queue(input, last)[i], Shares(input, last)[i]);
    }
  }

  /** The stock reaches this place in the queue of the product. */
  ghost predicate Reached(input: PlanInput, product: Id, place: nat) {
    place < |Queue(input, product)| && place < Stock(input, product)
  }

  /** A ticket gets a share exactly when the stock reaches its place: every ticket in the queue has an
  open claim, so the first round alone decides who is served. */
  lemma ReachedAreServed(input: PlanInput, product: Id, i: nat)
    requires i < |Queue(input, product)|
    ensures Shares(input, product)[i] > 0 <==> Reached(input, product, i)
  {
    var queue := Queue(input, product);
    QueueMembers(input, product);
    forall k | 0 <= k < |queue| ensures Claims(input, queue)[k] > 0 {
      assert queue[k] in queue;
    }
    FrontIsServed(Claims(input, queue), Stock(input, product), Shares(input, product));
  }

  /** The plan succeeds exactly when the offers would expire after they are made and no ticket that the
  stock reaches had an offer accepted on the same business date. */
  lemma PlanOutcome(input: PlanInput)
    requires WellKeyed(input)
    ensures Plan(input).Success? <==> forall p, i: nat :: Reached(input, p, i) ==>
      input.createdAt < input.expiresAt && !AcceptedToday(input, Queue(input, p)[i])
    ensures Plan(input).Failure? ==> Plan(input).error in {OfferAlreadyExists, InvalidPeriod}
  {
    hide Plan, AcceptedToday, Reached, WellKeyed;
    PlanByShares(input);
    SharesMembers(input, Products(input));
    forall p, i: nat | Reached(input, p, i)
      ensures i < |Queue(input, p)| && Share(Queue(input, p)[i], Shares(input, p)[i]) in AllShares(input)
      ensures Shares(input, p)[i] > 0
    {
      InQueue(input, p, i);
      ReachedAreServed(input, p, i);
    }
    forall s | s in AllShares(input) && s.quantity > 0
      ensures exists p, i: nat :: Reached(input, p, i) && i < |Queue(input, p)| && Queue(input, p)[i] == s.ticket
    {
      var p, i: nat :| p in Products(input) && i < |Queue(input, p)| && s == Share(Queue(input, p)[i], Shares(input, p)[i]);
      ReachedAreServed(input, p, i);
    }
  }

  lemma InQueue(input: PlanInput, product: Id, i: nat)
    requires Reached(input, product, i)
    ensures i < |Queue(input, product)| && product in Products(input)
  {
    if product !in Products(input) { EmptyQueue(input, product); }
  }

  lemma {:induction false} IntendedNothing(input: PlanInput, shares: seq<Share>)
    requires forall s :: s in shares ==> s.quantity == 0
    ensures Intended(input, shares) == []
  {
    IntendedMembers(input, shares);
    if Intended(input, shares) != [] { HasMember(Intended(input, shares)); }
  }

  /** `again` is `input` after its plan was carried out: same tickets, the offers added, the stock down. */
  ghost predicate CarriedOut(input: PlanInput, plan: seq<PlannedOffer>, again: PlanInput) {
    && again.tickets == input.tickets
    && again.createdAt == input.createdAt
    && again.expiresAt == input.expiresAt
    && again.offerId == input.offerId
    && again.offers == input.offers + Offers(plan)
    && forall p :: Stock(again, p) == Monus(Stock(input, p), PlannedFor(plan, p))
  }

  lemma StillOfferable(input: PlanInput, plan: seq<PlannedOffer>, again: PlanInput, ticket: Ticket)
    requires CarriedOut(input, plan, again) && Offerable(again, ticket)
    ensures Offerable(input, ticket)
  {
    TotalAppend(input.offers, Offers(plan), (o: Offer) => if o.ticket == ticket.id then Committed(o, input.createdAt) else 0);
    assert forall o :: o in input.offers ==> o in again.offers;
    assert OfferIds(input.offers) <= OfferIds(again.offers);
    assert Unsettled(input.offers) <= Unsettled(again.offers);
  }

  lemma PlannedIsUnsettled(input: PlanInput, plan: seq<PlannedOffer>, again: PlanInput, x: PlannedOffer)
    requires CarriedOut(input, plan, again) && x in plan && x.offer.status == Pending
    ensures x.offer.ticket in Unsettled(again.offers)
  {
    var k :| 0 <= k < |plan| && plan[k] == x;
    assert Offers(plan)[k] == x.offer;
    assert again.offers[|input.offers| + k] == x.offer;
  }

  /** A ticket that may still be offered got nothing in the plan: an offer would be pending. */
  lemma OfferableGotNothing(input: PlanInput, again: PlanInput, share: Share)
    requires WellKeyed(input) && Plan(input).Success? && CarriedOut(input, Plan(input).value, again)
    requires share in AllShares(input) && Offerable(again, share.ticket)
    ensures share.quantity == 0
  {
    PlanByShares(input);
    IntendedMembers(input, AllShares(input));
    var x := PlannedOffer(NewOffer(input, share.ticket, share.quantity), Eligible(input, share.ticket));
    if x in Plan(input).value { PlannedIsUnsettled(input, Plan(input).value, again, x); }
  }

  /** A ticket left without an offer means its product had none left, before and after. */
  lemma NothingLeftToOffer(input: PlanInput, again: PlanInput, product: Id, i: nat)
    requires WellKeyed(input) && Plan(input).Success? && CarriedOut(input, Plan(input).value, again)
    requires i < |Queue(again, product)|
    ensures Shares(again, product)[i] == 0
  {
    var ticket := Queue(again, product)[i];
    assert ticket in Queue(again, product);
    assert ticket.product == product && ticket in input.tickets && Offerable(again, ticket) by {
      QueueMembers(again, product);
    }
    var k := ShareOfTicket(input, Plan(input).value, again, ticket);
    OfferableGotNothing(input, again, Share(ticket, Shares(input, product)[k]));
    UnservedMeansEmpty(Claims(input, Queue(input, product)), Stock(input, product), Shares(input, product), k);
    PlanUsesTheStock(input, product);
    SumAtLeast(Shares(again, product), i);
  }

  lemma ShareOfTicket(input: PlanInput, plan: seq<PlannedOffer>, again: PlanInput, ticket: Ticket) returns (k: nat)
    requires CarriedOut(input, plan, again) && ticket in input.tickets && Offerable(again, ticket)
    ensures k < |Queue(input, ticket.product)| && Queue(input, ticket.product)[k] == ticket
    ensures Share(ticket, Shares(input, ticket.product)[k]) in AllShares(input)
    ensures Claims(input, Queue(input, ticket.product))[k] > 0
  {
    StillOfferable(input, plan, again, ticket);
    QueueMembers(input, ticket.product);
    k :| 0 <= k < |Queue(input, ticket.product)| && Queue(input, ticket.product)[k] == ticket;
    ProductsMembers(input);
    SharesMembers(input, Products(input));
  }

  lemma PlanningAgainOffersNothing(input: PlanInput, again: PlanInput)
    requires WellKeyed(input) && Plan(input).Success? && CarriedOut(input, Plan(input).value, again)
    ensures Plan(again) == Success([])
  {
    SharesMembers(again, Products(again));
    forall s | s in AllShares(again) ensures s.quantity == 0 {
      var p, i :| p in Products(again) && 0 <= i < |Queue(again, p)|
        && s == Share(Queue(again, p)[i], Shares(again, p)[i]);
      NothingLeftToOffer(input, again, p, i);
    }
    PlanByShares(again);
    IntendedNothing(again, AllShares(again));
  }

  lemma {:induction false} StockDrops(input: PlanInput, plan: seq<PlannedOffer>, again: PlanInput, n: nat, product: Id)
    requires n <= |input.snapshots| == |again.snapshots|
    requires forall k :: 0 <= k < n ==> again.snapshots[k].product == input.snapshots[k].product
    requires forall k :: 0 <= k < n && input.snapshots[k].product == product ==>
      again.snapshots[k].available - ProductClaim(again.offers, again.alreadyReserved, product, again.createdAt)
      == input.snapshots[k].available - ProductClaim(input.offers, input.alreadyReserved, product, input.createdAt)
         - PlannedFor(plan, product)
    ensures StockIn(again, again.snapshots[..n], product)
         == Monus(StockIn(input, input.snapshots[..n], product), PlannedFor(plan, product))
  {
    if n > 0 {
      StockDrops(input, plan, again, n - 1, product);
      assert again.snapshots[..n][..n - 1] == again.snapshots[..n - 1];
      assert input.snapshots[..n][..n - 1] == input.snapshots[..n - 1];
    }
  }

  /** The planned offers claim what they offer, unless the snapshot already shows them as reserved. */
  lemma PlannedClaim(input: PlanInput, alreadyReserved: set<Id>, reserved: bool, product: Id)
    requires WellKeyed(input) && Plan(input).Success?
    requires forall x :: x in Plan(input).value ==> (x.offer.id in alreadyReserved <==> reserved)
    ensures ProductClaim(Offers(Plan(input).value), alreadyReserved, product, input.createdAt)
         == if reserved then 0 else PlannedFor(Plan(input).value, product)
  {
    hide Plan, WellKeyed;
    var plan, at := Plan(input).value, input.createdAt;
    PlanOffersAreSound(input);
    var f := (o: Offer) => if o.product == product && o.id !in alreadyReserved then Committed(o, at) else 0;
    assert forall k :: 0 <= k < |plan| ==> Offers(plan)[k] == plan[k].offer && plan[k] in plan;
    if reserved {
      TotalZero(Offers(plan), f);
    } else {
      TotalSame(Offers(plan), f, plan, (x: PlannedOffer) => if x.offer.product == product then x.offer.offered else 0);
    }
  }

  /** Replanning with the planned offers on record as claims plans nothing. */
  lemma ReplanWithClaims(input: PlanInput)
    requires WellKeyed(input) && Plan(input).Success?
    requires input.alreadyReserved <= OfferIds(input.offers)
    ensures Plan(input.(offers := input.offers + Offers(Plan(input).value))) == Success([])
  {
    hide Plan, WellKeyed;
    var plan := Plan(input).value;
    var again := input.(offers := input.offers + Offers(plan));
    PlanOffersAreSound(input);
    forall p ensures Stock(again, p) == Monus(Stock(input, p), PlannedFor(plan, p)) {
      PlannedClaim(input, input.alreadyReserved, false, p);
      TotalAppend(input.offers, Offers(plan),
        (o: Offer) => if o.product == p && o.id !in input.alreadyReserved then Committed(o, input.createdAt) else 0);
      StockDrops(input, plan, again, |input.snapshots|, p);
      assert input.snapshots[..|input.snapshots|] == input.snapshots;
    }
    PlanningAgainOffersNothing(input, again);
  }

  function Lowered(snapshots: seq<ProductSnapshot>, plan: seq<PlannedOffer>): (r: seq<ProductSnapshot>)
    ensures |r| == |snapshots|
  {
    seq(|snapshots|, i requires 0 <= i < |snapshots| =>
      ProductSnapshot(snapshots[i].product, snapshots[i].available - PlannedFor(plan, snapshots[i].product)))
  }

  /** Replanning after the planned offers were turned into holds, which the snapshot then shows as
  reserved stock, plans nothing either. */
  lemma ReplanWithHolds(input: PlanInput)
    requires WellKeyed(input) && Plan(input).Success?
    ensures var plan := Plan(input).value;
      Plan(input.(offers := input.offers + Offers(plan),
                  alreadyReserved := input.alreadyReserved + OfferIds(Offers(plan)),
                  snapshots := Lowered(input.snapshots, plan))) == Success([])
  {
    var plan := Plan(input).value;
    var reserved := input.alreadyReserved + OfferIds(Offers(plan));
    var again := input.(offers := input.offers + Offers(plan), alreadyReserved := reserved,
                        snapshots := Lowered(input.snapshots, plan));
    PlannedIdsAreNew(input);
    forall p ensures Stock(again, p) == Monus(Stock(input, p), PlannedFor(plan, p)) {
      HoldsAddNoClaim(input.offers, Offers(plan), input.alreadyReserved, p, input.createdAt);
      StockDrops(input, plan, again, |input.snapshots|, p);
      assert again.snapshots[..|input.snapshots|] == again.snapshots;
      assert input.snapshots[..|input.snapshots|] == input.snapshots;
    }
    PlanningAgainOffersNothing(input, again);
  }

  lemma PlannedIdsAreNew(input: PlanInput)
    requires WellKeyed(input) && Plan(input).Success?
    ensures OfferIds(input.offers) !! OfferIds(Offers(Plan(input).value))
  {
    var plan := Plan(input).value;
    PlanOffersAreSound(input);
    forall id | id in OfferIds(Offers(plan)) ensures id !in OfferIds(input.offers) {
      var o :| o in Offers(plan) && o.id == id;
      var k :| 0 <= k < |plan| && Offers(plan)[k] == o;
      assert plan[k] in plan;
    }
  }

  /** Offers whose quantity the snapshot shows as reserved add no claim to the product. */
  lemma HoldsAddNoClaim(offers: seq<Offer>, made: seq<Offer>, held: set<Id>, product: Id, at: Instant)
    requires OfferIds(offers) !! OfferIds(made)
    ensures ProductClaim(offers + made, held + OfferIds(made), product, at) == ProductClaim(offers, held, product, at)
  {
    var reserved := held + OfferIds(made);
    var f := (o: Offer) => if o.product == product && o.id !in reserved then Committed(o, at) else 0;
    var g := (o: Offer) => if o.product == product && o.id !in held then Committed(o, at) else 0;
    TotalAppend(offers, made, f);
    assert forall k :: 0 <= k < |offers| ==> offers[k].id in OfferIds(offers);
    assert forall k :: 0 <= k < |made| ==> made[k].id in OfferIds(made);
    TotalSame(offers, f, offers, g);
    TotalZero(made, f);
  }

  // ---------------------------------------------------------------------------------------------
  // Input order, stock and age
  // ---------------------------------------------------------------------------------------------

  /** The same tickets and offers, listed in any order. */
  ghost predicate SameRows(a: PlanInput, b: PlanInput) {
    && multiset(a.tickets) == multiset(b.tickets)
    && multiset(a.offers) == multiset(b.offers)
    && a.businessDate == b.businessDate && a.createdAt == b.createdAt && a.expiresAt == b.expiresAt
    && a.alreadyReserved == b.alreadyReserved
    && a.offerId == b.offerId
  }

  lemma SameClaims(a: PlanInput, b: PlanInput)
    requires SameRows(a, b)
    ensures forall t :: TicketClaim(a.offers, t, a.createdAt) == TicketClaim(b.offers, t, b.createdAt)
    ensures forall p :: ProductClaim(a.offers, a.alreadyReserved, p, a.createdAt)
                     == ProductClaim(b.offers, b.alreadyReserved, p, b.createdAt)
    ensures forall o :: o in a.offers <==> o in b.offers
    ensures forall t :: Offerable(a, t) == Offerable(b, t) && Eligible(a, t) == Eligible(b, t)
  {
    SameElements(a.offers, b.offers);
    forall t ensures TicketClaim(a.offers, t, a.createdAt) == TicketClaim(b.offers, t, b.createdAt) {
      TotalPermute(a.offers, b.offers, (o: Offer) => if o.ticket == t then Committed(o, a.createdAt) else 0);
    }
    forall p ensures ProductClaim(a.offers, a.alreadyReserved, p, a.createdAt)
                  == ProductClaim(b.offers, b.alreadyReserved, p, b.createdAt)
    {
      TotalPermute(a.offers, b.offers,
        (o: Offer) => if o.product == p && o.id !in a.alreadyReserved then Committed(o, a.createdAt) else 0);
    }
    assert Unsettled(a.offers) == Unsettled(b.offers);
    assert OfferIds(a.offers) == OfferIds(b.offers);
  }

  lemma OrdersAreTotal()
    ensures TotalPreorder(QueueOrder) && TotalPreorder(IdOrder)
  {
  }

  lemma SameQueue(a: PlanInput, b: PlanInput, product: Id)
    requires SameRows(a, b) && UniqueTickets(a.tickets)
    ensures Queue(a, product) == Queue(b, product)
    ensures Claims(a, Queue(a, product)) == Claims(b, Queue(b, product))
  {
    SameClaims(a, b);
    OrdersAreTotal();
    var keep := (t: Ticket) => t.product == product && Offerable(a, t);
    var keep' := (t: Ticket) => t.product == product && Offerable(b, t);
    var g, g' := Group(a, a.tickets, product), Group(b, b.tickets, product);
    forall t ensures multiset(g)[t] == multiset(g')[t] {
      FilterCounts(a.tickets, keep, t);
      FilterCounts(b.tickets, keep', t);
    }
    assert multiset(g) == multiset(g');
    assert NoTies(g, QueueOrder) by {
      UniqueTicketsAreDistinct(a.tickets);
      forall x, y | x in g && y in g && QueueOrder(x, y) && QueueOrder(y, x) ensures x == y {
        FilterCounts(a.tickets, keep, x);
        FilterCounts(a.tickets, keep, y);
      }
    }
    SortIgnoresInputOrder(g, g', QueueOrder);
  }

  lemma SameProducts(a: PlanInput, b: PlanInput)
    requires SameRows(a, b)
    ensures Products(a) == Products(b)
  {
    SameClaims(a, b);
    SameElements(a.tickets, b.tickets);
    GroupProductsMembers(a, a.tickets);
    GroupProductsMembers(b, b.tickets);
    forall p ensures p in GroupProducts(a, a.tickets) <==> p in GroupProducts(b, b.tickets) {
      assert forall t :: t in a.tickets && t.product == p && Offerable(a, t)
                    <==> t in b.tickets && t.product == p && Offerable(b, t);
    }
    DistinctPermutes(GroupProducts(a, a.tickets), GroupProducts(b, b.tickets));
    OrdersAreTotal();
    SortIgnoresInputOrder(GroupProducts(a, a.tickets), GroupProducts(b, b.tickets), IdOrder);
  }

  lemma {:induction false} SameStock(a: PlanInput, b: PlanInput, snapshots: seq<ProductSnapshot>, product: Id)
    requires SameRows(a, b)
    ensures StockIn(a, snapshots, product) == StockIn(b, snapshots, product)
  {
    SameClaims(a, b);
    if |snapshots| > 0 {
      SameStock(a, b, snapshots[..|snapshots| - 1], product);
    }
  }

  lemma {:induction false} SameShares(a: PlanInput, b: PlanInput, products: seq<Id>)
    requires SameRows(a, b) && UniqueTickets(a.tickets) && a.snapshots == b.snapshots
    ensures SharesOf(a, products) == SharesOf(b, products)
  {
    if |products| > 0 {
      var product := products[|products| - 1];
      SameShares(a, b, products[..|products| - 1]);
      SameQueue(a, b, product);
      SameStock(a, b, a.snapshots, product);
    }
  }

  lemma SameVerdict(a: PlanInput, b: PlanInput, ticket: Ticket, made: seq<Offer>, quantity: nat)
    requires SameRows(a, b)
    ensures CreateDailyPriorityOffer(a, ticket, a.offers + made, quantity)
         == CreateDailyPriorityOffer(b, ticket, b.offers + made, quantity)
  {
    SameElements(a.offers, b.offers);
    var claim := (o: Offer) => if o.ticket == ticket.id then Committed(o, a.createdAt) else 0;
    TotalAppend(a.offers, made, claim);
    TotalAppend(b.offers, made, claim);
    TotalPermute(a.offers, b.offers, claim);
    assert forall o :: o in a.offers + made <==> o in b.offers + made;
  }

  lemma {:induction false} SameOffers(a: PlanInput, b: PlanInput, shares: seq<Share>)
    requires SameRows(a, b)
    ensures Emit(a, shares) == Emit(b, shares)
  {
    if |shares| > 0 {
      var front, last := shares[..|shares| - 1], shares[|shares| - 1];
      SameOffers(a, b, front);
      if Emit(a, front).Success? {
        SameVerdict(a, b, last.ticket, Offers(Emit(a, front).value), last.quantity);
      }
      assert Eligible(a, last.ticket) == Eligible(b, last.ticket) by { SameClaims(a, b); }
    }
  }

  /** The plan does not depend on the order in which tickets and offers are given. */
  lemma PlanIgnoresInputOrder(a: PlanInput, b: PlanInput)
    requires SameRows(a, b) && UniqueTickets(a.tickets) && a.snapshots == b.snapshots
    ensures Plan(a) == Plan(b)
  {
    SameProducts(a, b);
    SameShares(a, b, Products(a));
    SameOffers(a, b, AllShares(a));
  }

  /** More stock of a product keeps its queue and never lowers anybody's share. */
  lemma MoreStockNeverLowersAShare(input: PlanInput, richer: PlanInput, product: Id)
    requires SameRows(input, richer) && UniqueTickets(input.tickets)
    requires Stock(input, product) <= Stock(richer, product)
    ensures Queue(richer, product) == Queue(input, product)
    ensures forall i :: 0 <= i < |Queue(input, product)| ==>
      Shares(input, product)[i] <= Shares(richer, product)[i]
  {
    SameQueue(input, richer, product);
    MoreStockIsMonotone(Claims(input, Queue(input, product)), Stock(input, product), Shares(input, product),
                        Stock(richer, product), Shares(richer, product));
  }

  /** Of two tickets of one product, the one waiting longer gets at least what the other gets, up to
  its own claim; and it is at most one unit ahead of one that could take more. */
  lemma LongerWaitIsNotBehind(input: PlanInput, product: Id, i: nat, j: nat)
    requires WellKeyed(input) && i < j < |Queue(input, product)|
    ensures var queue, q := Queue(input, product), Shares(input, product);
      && QueueOrder(queue[i], queue[j])
      && Min(Eligible(input, queue[i]), q[j]) <= q[i]
      && (q[i] <= q[j] + 1 || q[j] == Eligible(input, queue[j]))
  {
    OrdersAreTotal();
    SortSorts(Group(input, input.tickets, product), QueueOrder);
    FillIsFair(Claims(input, Queue(input, product)), Stock(input, product), Shares(input, product), i, j);
  }

  /** One ticket that got four bags of its six by an earlier offer, and stock of five bags in a later session
  of the date. */
  ghost predicate LaterSession(input: PlanInput, ticket: Ticket, earlier: Offer) {
    && input.tickets == [ticket] && ticket == Ticket(1, 7, 3, 6, 4, 5, Active)
    && input.offers == [earlier] && earlier == Offer(50, 1, 7, 3, 0, 4, 4, 10, 30, Consumed)
    && input.snapshots == [ProductSnapshot(3, 5)]
    && input.businessDate == 0 && input.createdAt == 40 && input.expiresAt == 60
    && input.offerId(1) == 1001
  }

  lemma ConsumedClaimsNothing(offers: seq<Offer>, alreadyReserved: set<Id>, ticket: Id, product: Id, at: Instant)
    requires forall o :: o in offers ==> o.status == Consumed
    ensures TicketClaim(offers, ticket, at) == 0 && ProductClaim(offers, alreadyReserved, product, at) == 0
  {
    TotalZero(offers, (o: Offer) => if o.ticket == ticket then Committed(o, at) else 0);
    TotalZero(offers, (o: Offer) => if o.product == product && o.id !in alreadyReserved then Committed(o, at) else 0);
  }

  lemma LaterSessionOffers(input: PlanInput, ticket: Ticket, earlier: Offer)
    requires LaterSession(input, ticket, earlier)
    ensures Offerable(input, ticket) && Eligible(input, ticket) == 2
  {
    ConsumedClaimsNothing(input.offers, input.alreadyReserved, 1, 3, 40);
    hide TicketClaim, ProductClaim;
    assert 1001 !in OfferIds(input.offers) && 1 !in Unsettled(input.offers);
  }

  lemma LaterSessionQueue(input: PlanInput, ticket: Ticket, earlier: Offer)
    requires LaterSession(input, ticket, earlier)
    ensures Products(input) == [3] && Queue(input, 3) == [ticket] && Claims(input, [ticket]) == [2]
  {
    LaterSessionOffers(input, ticket, earlier);
    hide Offerable, Eligible;
    GroupStep(input, [], ticket, input.tickets);
    assert Group(input, [], 3) == [] && GroupProducts(input, []) == [];
    assert [] + [3] == [3] && [] + [ticket] == [ticket];
    assert Group(input, input.tickets, 3) == [ticket] && GroupProducts(input, input.tickets) == [3];
    hide Group, GroupProducts;
    SortOne(ticket, QueueOrder);
    SortOne(3, IdOrder);
  }

  lemma LaterSessionStock(input: PlanInput, ticket: Ticket, earlier: Offer)
    requires LaterSession(input, ticket, earlier)
    ensures Stock(input, 3) == 5
  {
    ConsumedClaimsNothing(input.offers, input.alreadyReserved, 1, 3, 40);
    hide ProductClaim;
  }

  lemma LaterSessionShares(input: PlanInput, ticket: Ticket, earlier: Offer)
    requires LaterSession(input, ticket, earlier)
    ensures AllShares(input) == [Share(ticket, 2)]
  {
    LaterSessionQueue(input, ticket, earlier);
    LaterSessionStock(input, ticket, earlier);
    hide Queue, Products, Claims, Stock;
    var q := Shares(input, 3);
    SumAround([2], 0);
    SumAround(q, 0);
    SharesStep(input, [3], 0);
    assert [3][..1] == [3] && [3][..0] == [];
  }

  /** Documented to be possible, refused by the code: a ticket that already accepted and received a
  part on a business date cannot be offered the rest by a later session of the same date, and the
  refusal aborts the plan for every store. */
  lemma SecondOfferOfTheDayAborts(input: PlanInput, ticket: Ticket, earlier: Offer)
    requires LaterSession(input, ticket, earlier)
    ensures Plan(input) == Failure(OfferAlreadyExists)
  {
    LaterSessionShares(input, ticket, earlier);
    EmitStep(input, [], Share(ticket, 2));
    assert [] + [Share(ticket, 2)] == [Share(ticket, 2)];
    assert Effective(earlier, 1, 0, 40) && earlier in input.offers + Offers([]);
  }
}
