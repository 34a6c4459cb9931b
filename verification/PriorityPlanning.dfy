/** The plan of a session's priority offers: scarce stock shared among wait tickets.

Claims already made by other sessions' offers come off the stock first; then every ticket that may
be offered takes one unit per round, oldest ticket first, until the stock or the tickets run out.
`PlanPriorityOffers` is the program with its loops and its failing branch; `Plan` is what it
computes, in terms of sums over the offers and of `WaterFill.Fill`. */
module PriorityPlanning {
  import opened Common
  import opened Quantities
  import opened WaterFill
  import opened Ordering

  datatype Result<+T, +E> = Success(value: T) | Failure(error: E)

  datatype OfferStatus = Pending | Confirmed | Declined | Expired | Consumed

  datatype Offer = Offer(
    id: Id, ticket: Id, store: Id, product: Id, businessDate: int,
    offered: nat, confirmed: nat, createdAt: Instant, expiresAt: Instant, status: OfferStatus)

  datatype TicketStatus = Active | Fulfilled | Cancelled

  datatype Ticket = Ticket(
    id: Id, store: Id, product: Id, open: nat, reserved: nat, requestedAt: Instant, status: TicketStatus)

  /** Stock of one product at the session's snapshot; negative when the product is oversold. */
  datatype ProductSnapshot = ProductSnapshot(product: Id, available: int)

  datatype PlanInput = PlanInput(
    businessDate: int, createdAt: Instant, expiresAt: Instant,
    snapshots: seq<ProductSnapshot>, tickets: seq<Ticket>, offers: seq<Offer>,
    alreadyReserved: set<Id>, offerId: Id -> Id)

  datatype PlannedOffer = PlannedOffer(offer: Offer, eligibleAtOffer: nat)

  datatype PlanError =
    | TicketNotActive
    | DuplicateOfferId
    | OfferAlreadyExists
    | InvalidPeriod
    | InvalidQuantity
    | WaitQuantityExceeded

  // ---------------------------------------------------------------------------------------------
  // Claims
  // ---------------------------------------------------------------------------------------------

  /** What an offer still claims at `at`. */
  function Committed(offer: Offer, at: Instant): nat {
    match offer.status
    case Confirmed => offer.confirmed
    case Pending => if at < offer.expiresAt then offer.offered else 0
    case _ => 0
  }

  function TicketClaim(offers: seq<Offer>, ticket: Id, at: Instant): nat {
    Total(offers, (o: Offer) => if o.ticket == ticket then Committed(o, at) else 0)
  }

  /** Claims on a product's stock that the snapshot does not show as reserved yet. */
  function ProductClaim(offers: seq<Offer>, alreadyReserved: set<Id>, product: Id, at: Instant): nat {
    Total(offers, (o: Offer) =>
      if o.product == product && o.id !in alreadyReserved then Committed(o, at) else 0)
  }

  /** Stock a product can still offer; the last snapshot row of a product counts. */
  function StockIn(input: PlanInput, snapshots: seq<ProductSnapshot>, product: Id): nat {
    if |snapshots| == 0 then 0
    else
      var last := snapshots[|snapshots| - 1];
      if last.product == product then
        var claim := ProductClaim(input.offers, input.alreadyReserved, product, input.createdAt);
        if last.available <= claim then 0 else last.available - claim
      else StockIn(input, snapshots[..|snapshots| - 1], product)
  }

  function Stock(input: PlanInput, product: Id): nat {
    StockIn(input, input.snapshots, product)
  }

  function Unsettled(offers: seq<Offer>): set<Id> {
    set o | o in offers && o.status == Pending :: o.ticket
  }

  function OfferIds(offers: seq<Offer>): set<Id> {
    set o | o in offers :: o.id
  }

  predicate Offerable(input: PlanInput, ticket: Ticket) {
    var claim := TicketClaim(input.offers, ticket.id, input.createdAt);
    && ticket.status == Active
    && ticket.reserved + claim < ticket.open
    && input.offerId(ticket.id) !in OfferIds(input.offers)
    && claim == 0
    && ticket.id !in Unsettled(input.offers)
  }

  function Eligible(input: PlanInput, ticket: Ticket): nat {
    Monus(ticket.open, ticket.reserved + TicketClaim(input.offers, ticket.id, input.createdAt))
  }

  // ---------------------------------------------------------------------------------------------
  // Queues
  // ---------------------------------------------------------------------------------------------

  predicate QueueOrder(left: Ticket, right: Ticket) {
    if left.requestedAt != right.requestedAt then left.requestedAt < right.requestedAt
    else if left.store != right.store then left.store < right.store
    else left.id <= right.id
  }

  predicate IdOrder(left: Id, right: Id) {
    left <= right
  }

  /** The tickets of a product that may be offered, in the order they were given. */
  function Group(input: PlanInput, tickets: seq<Ticket>, product: Id): seq<Ticket> {
    Filter(tickets, (t: Ticket) => t.product == product && Offerable(input, t))
  }

  /** The products of those tickets, each once, in the order they first appear. */
  function GroupProducts(input: PlanInput, tickets: seq<Ticket>): seq<Id> {
    if |tickets| == 0 then []
    else
      var last := tickets[|tickets| - 1];
      var before := GroupProducts(input, tickets[..|tickets| - 1]);
      if Offerable(input, last) && last.product !in before then before + [last.product] else before
  }

  function Products(input: PlanInput): seq<Id> {
    Sort(GroupProducts(input, input.tickets), IdOrder)
  }

  /** The tickets of a product in the order they are served. */
  function Queue(input: PlanInput, product: Id): seq<Ticket> {
    Sort(Group(input, input.tickets, product), QueueOrder)
  }

  function Claims(input: PlanInput, queue: seq<Ticket>): (claims: seq<nat>)
    ensures |claims| == |queue|
  {
    seq(|queue|, i requires 0 <= i < |queue| => Eligible(input, queue[i]))
  }

  ghost function Shares(input: PlanInput, product: Id): (q: seq<nat>)
    ensures |q| == |Queue(input, product)|
  {
    Fill(Claims(input, Queue(input, product)), Stock(input, product))
  }

  // ---------------------------------------------------------------------------------------------
  // Offers
  // ---------------------------------------------------------------------------------------------

  datatype Share = Share(ticket: Ticket, quantity: nat)

  /** An offer of the ticket and business date that still stands in the way of another one. */
  predicate Effective(offer: Offer, ticket: Id, businessDate: int, at: Instant) {
    && offer.ticket == ticket
    && offer.businessDate == businessDate
    && offer.status != Declined
    && offer.status != Expired
    && !(offer.status == Pending && offer.expiresAt <= at)
  }

  function NewOffer(input: PlanInput, ticket: Ticket, quantity: nat): Offer {
    Offer(input.offerId(ticket.id), ticket.id, ticket.store, ticket.product, input.businessDate,
          quantity, 0, input.createdAt, input.expiresAt, Pending)
  }

  /** The domain's constructor of one offer, with its checks in their order. */
  function CreateDailyPriorityOffer(input: PlanInput, ticket: Ticket, existing: seq<Offer>, quantity: nat)
    : Result<Offer, PlanError>
  {
    if ticket.status != Active then Failure(TicketNotActive)
    else if exists o :: o in existing && o.id == input.offerId(ticket.id) then Failure(DuplicateOfferId)
    else if exists o :: o in existing && Effective(o, ticket.id, input.businessDate, input.createdAt) then
      Failure(OfferAlreadyExists)
    else if input.expiresAt <= input.createdAt then Failure(InvalidPeriod)
    else if quantity == 0 then Failure(InvalidQuantity)
    else if ticket.open < ticket.reserved + TicketClaim(existing, ticket.id, input.createdAt) + quantity then
      Failure(WaitQuantityExceeded)
    else Success(NewOffer(input, ticket, quantity))
  }

  function Offers(planned: seq<PlannedOffer>): (r: seq<Offer>)
    ensures |r| == |planned|
  {
    seq(|planned|, i requires 0 <= i < |planned| => planned[i].offer)
  }

  /** Turning shares into offers, one after the other; the first refusal aborts the plan. */
  function Emit(input: PlanInput, shares: seq<Share>): Result<seq<PlannedOffer>, PlanError> {
    if |shares| == 0 then Success([])
    else
      var last := shares[|shares| - 1];
      match Emit(input, shares[..|shares| - 1])
      case Failure(error) => Failure(error)
      case Success(planned) =>
        if last.quantity == 0 then Success(planned)
        else
          match CreateDailyPriorityOffer(input, last.ticket, input.offers + Offers(planned), last.quantity)
          case Failure(error) => Failure(error)
          case Success(offer) => Success(planned + [PlannedOffer(offer, Eligible(input, last.ticket))])
  }

  function Zip(queue: seq<Ticket>, q: seq<nat>): (shares: seq<Share>)
    requires |q| == |queue|
    ensures |shares| == |queue|
  {
    seq(|queue|, i requires 0 <= i < |queue| => Share(queue[i], q[i]))
  }

  ghost function SharesOf(input: PlanInput, products: seq<Id>): seq<Share> {
    if |products| == 0 then []
    else
      var product := products[|products| - 1];
      SharesOf(input, products[..|products| - 1]) + Zip(Queue(input, product), Shares(input, product))
  }

  ghost function AllShares(input: PlanInput): seq<Share> {
    SharesOf(input, Products(input))
  }

  ghost function Plan(input: PlanInput): Result<seq<PlannedOffer>, PlanError> {
    Emit(input, AllShares(input))
  }

  // ---------------------------------------------------------------------------------------------
  // The program
  // ---------------------------------------------------------------------------------------------

  function At(m: map<Id, nat>, key: Id): nat {
    if key in m then m[key] else 0
  }

  function GroupAt(m: map<Id, seq<Ticket>>, key: Id): seq<Ticket> {
    if key in m then m[key] else []
  }

  lemma ClaimStep(before: seq<Offer>, offer: Offer, after: seq<Offer>, alreadyReserved: set<Id>, at: Instant)
    requires after == before + [offer]
    ensures forall t ::
      TicketClaim(after, t, at) == TicketClaim(before, t, at) + if offer.ticket == t then Committed(offer, at) else 0
    ensures forall p ::
      ProductClaim(after, alreadyReserved, p, at) == ProductClaim(before, alreadyReserved, p, at)
        + if offer.product == p && offer.id !in alreadyReserved then Committed(offer, at) else 0
  {
    assert after[..|before|] == before;
  }

  lemma GroupStep(input: PlanInput, before: seq<Ticket>, ticket: Ticket, after: seq<Ticket>)
    requires after == before + [ticket]
    ensures forall p ::
      Group(input, after, p) == Group(input, before, p)
        + if ticket.product == p && Offerable(input, ticket) then [ticket] else []
    ensures GroupProducts(input, after) == GroupProducts(input, before)
        + if Offerable(input, ticket) && ticket.product !in GroupProducts(input, before) then [ticket.product] else []
  {
    assert after[..|before|] == before;
  }

  method SumClaims(input: PlanInput) returns (byProduct: map<Id, nat>, byTicket: map<Id, nat>)
    ensures forall p :: At(byProduct, p) == ProductClaim(input.offers, input.alreadyReserved, p, input.createdAt)
    ensures forall t :: At(byTicket, t) == TicketClaim(input.offers, t, input.createdAt)
  {
    byProduct, byTicket := map[], map[];
    for i := 0 to |input.offers|
      invariant forall p ::
        At(byProduct, p) == ProductClaim(input.offers[..i], input.alreadyReserved, p, input.createdAt)
      invariant forall t ::
        At(byTicket, t) == TicketClaim(input.offers[..i], t, input.createdAt)
    {
      var offer := input.offers[i];
      ClaimStep(input.offers[..i], offer, input.offers[..i + 1], input.alreadyReserved, input.createdAt);
      var committed := Committed(offer, input.createdAt);
      byTicket := byTicket[offer.ticket := At(byTicket, offer.ticket) + committed];
      if offer.id in input.alreadyReserved { continue; }
      byProduct := byProduct[offer.product := At(byProduct, offer.product) + committed];
    }
    assert input.offers[..|input.offers|] == input.offers;
  }

  method StockByProduct(input: PlanInput, committedByProduct: map<Id, nat>) returns (available: map<Id, nat>)
    requires forall p ::
      At(committedByProduct, p) == ProductClaim(input.offers, input.alreadyReserved, p, input.createdAt)
    ensures forall p :: At(available, p) == Stock(input, p)
  {
    available := map[];
    for i := 0 to |input.snapshots|
      invariant forall p :: At(available, p) == StockIn(input, input.snapshots[..i], p)
    {
      var row := input.snapshots[i];
      assert input.snapshots[..i + 1][..i] == input.snapshots[..i];
      var committed := At(committedByProduct, row.product);
      available := available[row.product := if row.available <= committed then 0 else row.available - committed];
    }
    assert input.snapshots[..|input.snapshots|] == input.snapshots;
  }

  lemma NoGroups(input: PlanInput)
    ensures GroupProducts(input, []) == [] && forall p :: Group(input, [], p) == []
  {
  }

  method GroupTickets(input: PlanInput, committedByTicket: map<Id, nat>)
    returns (products: seq<Id>, groups: map<Id, seq<Ticket>>)
    requires forall t :: At(committedByTicket, t) == TicketClaim(input.offers, t, input.createdAt)
    ensures products == GroupProducts(input, input.tickets)
    ensures forall p :: GroupAt(groups, p) == Group(input, input.tickets, p)
  {
    hide Group, GroupProducts, TicketClaim, Unsettled, OfferIds;
    var unsettled := Unsettled(input.offers);
    var existingOfferIds := OfferIds(input.offers);
    products, groups := [], map[];
    NoGroups(input);
    for i := 0 to |input.tickets|
      invariant products == GroupProducts(input, input.tickets[..i])
      invariant forall p ::
        GroupAt(groups, p) == Group(input, input.tickets[..i], p)
      invariant forall p :: p in groups <==> p in products
    {
      var ticket := input.tickets[i];
      GroupStep(input, input.tickets[..i], ticket, input.tickets[..i + 1]);
      if ticket.status != Active || ticket.open <= ticket.reserved + At(committedByTicket, ticket.id) { continue; }
      if input.offerId(ticket.id) in existingOfferIds { continue; }
      if At(committedByTicket, ticket.id) > 0 || ticket.id in unsettled { continue; }
      assert Offerable(input, ticket);
      if ticket.product !in groups { products := products + [ticket.product]; }
      groups := groups[ticket.product := GroupAt(groups, ticket.product) + [ticket]];
    }
    assert input.tickets[..|input.tickets|] == input.tickets;
  }

  /** One round: one unit for every claimant that is not served yet, while stock lasts. */
  method ServeRound(claims: seq<nat>, served: seq<nat>, ghost level: nat, stock: nat)
    returns (q: seq<nat>, available: nat, ghost ahead: nat)
    requires served == AtLevel(claims, level, 0)
    ensures ahead <= |claims| && q == AtLevel(claims, level, ahead)
    ensures Sum(q) + available == Sum(served) + stock
    ensures available > 0 ==> ahead == |claims|
    ensures available <= stock
    ensures available == stock > 0 ==> q == claims
  {
    hide Sum;
    available, q := stock, served;
    var i := 0;
    assert q == AtLevel(claims, level, 0);
    while i < |claims| && available != 0
      invariant 0 <= i <= |claims|
      invariant q == AtLevel(claims, level, i)
      invariant Sum(q) + available == Sum(served) + stock
      invariant available <= stock
      invariant available == stock ==> forall k :: 0 <= k < i ==> claims[k] <= level
    {
      if q[i] < claims[i] {
        SumSet(q, i, q[i] + 1);
        q := q[i := q[i] + 1];
        available := available - 1;
      }
      i := i + 1;
      assert q == AtLevel(claims, level, i);
    }
    ahead := i;
  }

  /** The rounds: one unit per claimant per round, until the stock or every claim is used up. */
  method ServeInRounds(claims: seq<nat>, stock: nat) returns (q: seq<nat>)
    ensures IsFill(claims, stock, q)
  {
    var available: nat := stock;
    q := seq(|claims|, _ => 0);
    ghost var level: nat, ahead: nat := 0, 0;
    assert q == AtLevel(claims, 0, 0);
    SumZero(q);
    while available > 0
      invariant ahead <= |claims| && q == AtLevel(claims, level, ahead)
      invariant available > 0 ==> ahead == 0
      invariant Sum(q) + available == stock
      decreases available
    {
      var before := available;
      q, available, ahead := ServeRound(claims, q, level, available);
      if available == before { break; }
      if ahead == |claims| {
        assert q == AtLevel(claims, level + 1, 0);
        level, ahead := level + 1, 0;
      }
    }
    SumLeq(q, claims);
    assert IsFill(claims, stock, q);
  }

  lemma EmitStep(input: PlanInput, before: seq<Share>, share: Share)
    ensures Emit(input, before + [share]) ==
      match Emit(input, before)
      case Failure(error) => Failure(error)
      case Success(planned) =>
        if share.quantity == 0 then Success(planned)
        else
          match CreateDailyPriorityOffer(input, share.ticket, input.offers + Offers(planned), share.quantity)
          case Failure(error) => Failure(error)
          case Success(offer) => Success(planned + [PlannedOffer(offer, Eligible(input, share.ticket))])
  {
    assert (before + [share])[..|before|] == before;
  }

  /** A refusal is final. */
  lemma {:induction false} EmitAborts(input: PlanInput, before: seq<Share>, rest: seq<Share>)
    requires Emit(input, before).Failure?
    ensures Emit(input, before + rest) == Emit(input, before)
  {
    if rest == [] {
      assert before + rest == before;
    } else {
      EmitAborts(input, before, rest[..|rest| - 1]);
      assert before + rest == (before + rest[..|rest| - 1]) + [rest[|rest| - 1]];
      EmitStep(input, before + rest[..|rest| - 1], rest[|rest| - 1]);
    }
  }

  lemma {:induction false} SharesOfPrefix(input: PlanInput, products: seq<Id>, i: nat)
    requires i <= |products|
    ensures SharesOf(input, products[..i]) <= SharesOf(input, products)
  {
    if i < |products| {
      SharesOfPrefix(input, products[..|products| - 1], i);
      assert products[..|products| - 1][..i] == products[..i];
    } else {
      assert products[..i] == products;
    }
  }

  /** Row keys are unique: no two tickets of the input share an id. */
  ghost predicate UniqueTickets(tickets: seq<Ticket>) {
    forall i, j :: 0 <= i < j < |tickets| ==> tickets[i].id != tickets[j].id
  }

  /** Offers for one product's queue, appended to those already planned. */
  method OfferQueue(input: PlanInput, ghost before: seq<Share>, tickets: seq<Ticket>, quantities: seq<nat>,
                    planned: seq<PlannedOffer>)
    returns (r: Result<seq<PlannedOffer>, PlanError>)
    requires |quantities| == |tickets|
    requires Emit(input, before) == Success(planned)
    ensures r == Emit(input, before + Zip(tickets, quantities))
  {
    hide CreateDailyPriorityOffer, Eligible, Emit, Offers;
    var offers := planned;
    ghost var shares := Zip(tickets, quantities);
    assert before + shares[..0] == before;
    for k := 0 to |tickets|
      invariant Emit(input, before + shares[..k]) == Success(offers)
    {
      assert before + shares[..k + 1] == (before + shares[..k]) + [shares[k]];
      EmitStep(input, before + shares[..k], shares[k]);
      if quantities[k] == 0 { continue; }
      var offer := CreateDailyPriorityOffer(input, tickets[k], input.offers + Offers(offers), quantities[k]);
      if offer.Failure? {
        EmitAborts(input, before + shares[..k + 1], shares[k + 1..]);
        assert before + shares == (before + shares[..k + 1]) + shares[k + 1..];
        return Failure(offer.error);
      }
      offers := offers + [PlannedOffer(offer.value, Eligible(input, tickets[k]))];
    }
    assert shares[..|tickets|] == shares;
    r := Success(offers);
  }

  /** The queue of one product and everybody's share of it. */
  method ShareProduct(input: PlanInput, product: Id, group: seq<Ticket>, committedByTicket: map<Id, nat>, stock: nat)
    returns (tickets: seq<Ticket>, quantities: seq<nat>)
    requires group == Group(input, input.tickets, product) && stock == Stock(input, product)
    requires forall t :: At(committedByTicket, t) == TicketClaim(input.offers, t, input.createdAt)
    ensures tickets == Queue(input, product) && quantities == Shares(input, product)
  {
    tickets := Sort(group, QueueOrder);
    var claims := seq(|tickets|, k requires 0 <= k < |tickets| =>
      Monus(tickets[k].open, tickets[k].reserved + At(committedByTicket, tickets[k].id)));
    assert claims == Claims(input, tickets);
    quantities := ServeInRounds(claims, stock);
    FillIsUnique(claims, stock, quantities, Shares(input, product));
  }

  lemma PlanAborts(input: PlanInput, i: nat)
    requires i <= |Products(input)|
    requires Emit(input, SharesOf(input, Products(input)[..i])).Failure?
    ensures Plan(input) == Emit(input, SharesOf(input, Products(input)[..i]))
  {
    hide Emit, Products, SharesOf;
    SharesOfPrefix(input, Products(input), i);
    var made := SharesOf(input, Products(input)[..i]);
    EmitAborts(input, made, AllShares(input)[|made|..]);
    assert made + AllShares(input)[|made|..] == AllShares(input);
  }

  lemma SharesStep(input: PlanInput, products: seq<Id>, i: nat)
    requires i < |products|
    ensures SharesOf(input, products[..i + 1])
         == SharesOf(input, products[..i]) + Zip(Queue(input, products[i]), Shares(input, products[i]))
  {
    assert products[..i + 1][..i] == products[..i];
  }

  /** The planner computes `Plan`. */
  method PlanPriorityOffers(input: PlanInput) returns (r: Result<seq<PlannedOffer>, PlanError>)
    requires UniqueTickets(input.tickets)
    ensures r == Plan(input)
  {
    var committedByProduct, committedByTicket := SumClaims(input);
    var availableByProduct := StockByProduct(input, committedByProduct);
    var names, ticketsByProduct := GroupTickets(input, committedByTicket);
    var products := Sort(names, IdOrder);
    r := PlanProducts(input, products, ticketsByProduct, committedByTicket, availableByProduct);
  }

  method PlanProducts(input: PlanInput, products: seq<Id>, groups: map<Id, seq<Ticket>>,
                      committedByTicket: map<Id, nat>, available: map<Id, nat>)
    returns (r: Result<seq<PlannedOffer>, PlanError>)
    requires products == Products(input)
    requires forall t :: At(committedByTicket, t) == TicketClaim(input.offers, t, input.createdAt)
    requires forall p :: GroupAt(groups, p) == Group(input, input.tickets, p)
    requires forall p :: At(available, p) == Stock(input, p)
    ensures r == Plan(input)
  {
    ghost var shares: seq<Share> := [];
    r := Success([]);
    for i := 0 to |products|
      invariant shares == SharesOf(input, products[..i])
      invariant r.Success? && Emit(input, shares) == r
    {
      var product := products[i];
      var tickets, quantities := ShareProduct(
        input, product, GroupAt(groups, product), committedByTicket, At(available, product));
      r := OfferQueue(input, shares, tickets, quantities, r.value);
      SharesStep(input, products, i);
      shares := shares + Zip(tickets, quantities);
      if r.Failure? {
        PlanAborts(input, i + 1);
        return;
      }
    }
    assert products[..|products|] == products;
  }
}
