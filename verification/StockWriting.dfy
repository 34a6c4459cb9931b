/** Writing a run's result product by product: what has been written, and what still fits. */
module StockWriting {
  import opened Common
  import opened Quantities
  import opened StockTables
  import opened StockPersist
  import opened StockRun
  import A = Allocation
  import D = DemandSplit

  function IntAt(m: map<Id, int>, k: Id): int {
    if k in m then m[k] else 0
  }

  lemma NextHold(offers: seq<OfferRow>, i: nat, lines: seq<LineRow>, session: Id)
    requires i < |offers|
    ensures forall p :: HeldByAccepted(offers[..i + 1], lines, session, p)
                     == HeldByAccepted(offers[..i], lines, session, p)
                        + if Owned(offers[i], lines, session) && offers[i].product == p then offers[i].held else 0
  {
    hide Owned;
    assert offers[..i + 1][..i] == offers[..i];
  }

  lemma NextKept(kept: map<Id, nat>, after: map<Id, nat>, planned: seq<PlannedItem>, offers: seq<OfferRow>, i: nat,
                 lines: seq<LineRow>, session: Id)
    requires i < |offers| && forall p :: AtKey(kept, p) == KeptFor(planned, offers[..i], lines, session, p)
    requires after == if Owned(offers[i], lines, session)
      then kept[offers[i].product := AtKey(kept, offers[i].product) + KeptOf(planned, offers[i])] else kept
    ensures forall p :: AtKey(after, p) == KeptFor(planned, offers[..i + 1], lines, session, p)
  {
    hide Owned, KeptOf, Total;
    forall p ensures AtKey(after, p) == KeptFor(planned, offers[..i + 1], lines, session, p) {
      TotalTake(offers, i, OwnedKept(planned, lines, session, p));
      assert AtKey(kept, p) == KeptFor(planned, offers[..i], lines, session, p);
    }
  }

  lemma ConvertedIsSound(offers: seq<OfferRow>, tickets: seq<TicketRow>, snapshots: map<Id, seq<SnapshotItem>>, lines: seq<LineRow>,
                         session: Id, i: nat)
    requires OffersSound(offers, tickets, snapshots) && i < |offers|
    ensures OfferSound(offers[i], tickets) && OfferSound(Converted(offers[i], lines, session), tickets)
  {
    assert offers[i] in offers;
  }

  lemma NothingKeptYet(planned: seq<PlannedItem>, lines: seq<LineRow>, session: Id)
    ensures forall p :: KeptFor(planned, [], lines, session, p) == 0
  {
  }

  lemma KeptIs(planned: seq<PlannedItem>, o: OfferRow)
    ensures KeptOf(planned, o) == Min(o.held, match GrantFor(planned, o.ticket) case Some(g) => g case None => 0)
  {
  }

  /** The grants of the confirmed waits, by ticket; a later plan's grant replaces an earlier one. */
  method GrantsByTicket(planned: seq<PlannedItem>) returns (granted: map<Id, nat>)
    ensures forall t :: GrantFor(planned, t) == if t in granted then Some(granted[t]) else None
  {
    granted := map[];
    for k := 0 to |planned|
      invariant forall t :: GrantFor(planned[..k], t) == if t in granted then Some(granted[t]) else None
    {
      var xs := planned[k].out.remainders;
      ghost var earlier := granted;
      for i := 0 to |xs|
        invariant forall t :: t in granted <==> GrantIn(xs[..i], t).Some? || t in earlier
        invariant forall t :: t in granted ==> granted[t] == (if GrantIn(xs[..i], t).Some? then GrantIn(xs[..i], t).value else earlier[t])
      {
        var x := xs[i];
        assert xs[..i + 1][..i] == xs[..i];
        if x.demand.source.ConfirmedWait? { granted := granted[x.demand.source.ticket := x.granted]; }
      }
      assert xs[..|xs|] == xs && planned[..k + 1][..k] == planned[..k];
    }
    assert planned[..|planned|] == planned;
  }

  /** Result lines and reservations are only ever added; the new lines are the run's, and the new
  reservations are theirs and on no shipment yet. */
  ghost predicate Extends(before: Db, after: Db, run: Id) {
    && before.lines <= after.lines && before.reservations <= after.reservations
    && (forall i :: |before.lines| <= i < |after.lines| ==> after.lines[i].run == run)
    && (forall i :: |before.reservations| <= i < |after.reservations| ==>
          after.reservations[i].status == Reserved && after.reservations[i].shipment.None? && after.reservations[i].line >= |before.lines|)
  }

  lemma ExtendsTwice(a: Db, b: Db, c: Db, run: Id)
    requires Extends(a, b, run) && Extends(b, c, run)
    ensures Extends(a, c, run)
  {
  }

  /** What writing lines worth `granted` and `waitlisted` for a store and product changes. */
  ghost predicate Written(before: Db, after: Db, run: Id, store: Id, product: Id, granted: nat, waitlisted: nat) {
    && Extends(before, after, run)
    && (forall q :: ActivelyReserved(after.reservations, q) == ActivelyReserved(before.reservations, q) + if q == product then granted else 0)
    && (forall s, q :: LineGrants(after.lines, s, q) == LineGrants(before.lines, s, q) + if s == store && q == product then granted else 0)
    && (forall s, q :: LineWaits(after.lines, s, q) == LineWaits(before.lines, s, q) + if s == store && q == product then waitlisted else 0)
  }

  /** The result line of an accepted offer. */
  function WaitLine(run: Id, product: Id, x: A.Remainder, o: OfferRow): LineRow {
    LineRow(run, x.demand.store, product, ForOffer(o.ticket, o.id), x.demand.requested, x.granted, x.remaining)
  }

  function ShareLine(run: Id, store: Id, product: Id, share: D.LineShare): LineRow {
    LineRow(run, store, product, ForRequest(share.line.lineId), share.line.quantity, share.granted, share.waitlisted)
  }

  /** The result lines of a merged demand: each source line gets what is left when its turn comes. */
  function RequestLines(run: Id, store: Id, product: Id, lines: seq<D.SourceLine>, granted: nat): (r: seq<LineRow>)
    ensures |r| == |lines|
  {
    var q := FirstCome(D.LineQuantities(lines), granted);
    seq(|lines|, j requires 0 <= j < |lines| =>
      LineRow(run, store, product, ForRequest(lines[j].lineId), lines[j].quantity, q[j], lines[j].quantity - q[j]))
  }

  lemma SharesAreRows(run: Id, store: Id, product: Id, lines: seq<D.SourceLine>, granted: nat, steps: seq<A.Step>, shares: seq<D.LineShare>)
    requires D.IsSplit(lines, granted, steps, shares)
    ensures |shares| == |lines|
    ensures forall j :: 0 <= j < |shares| ==> ShareLine(run, store, product, shares[j]) == RequestLines(run, store, product, lines, granted)[j]
  {
    hide FirstCome;
    forall j | 0 <= j < |shares|
      ensures ShareLine(run, store, product, shares[j]) == RequestLines(run, store, product, lines, granted)[j]
    {
      assert D.IsShare(lines, granted, j, shares[j]);
    }
  }

  // ---------------------------------------------------------------------------------------------
  // The lines of a run
  // ---------------------------------------------------------------------------------------------

  /** The accepted offer of a ticket; a later row replaces an earlier one. */
  function OfferFor(accepted: seq<OfferRow>, ticket: Id): (r: Option<OfferRow>)
    ensures r.Some? ==> r.value in accepted && r.value.ticket == ticket
    ensures r.None? ==> forall o :: o in accepted ==> o.ticket != ticket
  {
    if |accepted| == 0 then None
    else
      var o := accepted[|accepted| - 1];
      assert forall x :: x in accepted ==> x in accepted[..|accepted| - 1] || x == o;
      if o.ticket == ticket then Some(o) else OfferFor(accepted[..|accepted| - 1], ticket)
  }

  /** The merged demand with an id; a later row replaces an earlier one. */
  function MergedFor(merged: seq<MergedDemand>, id: Id): (r: Option<MergedDemand>)
    ensures r.Some? ==> r.value in merged && r.value.id == id
    ensures r.None? ==> forall m :: m in merged ==> m.id != id
  {
    if |merged| == 0 then None
    else
      var m := merged[|merged| - 1];
      assert forall x :: x in merged ==> x in merged[..|merged| - 1] || x == m;
      if m.id == id then Some(m) else MergedFor(merged[..|merged| - 1], id)
  }

  /** The result lines of a remainder: one for a confirmed wait, one per source line for a request. */
  function RemainderLines(run: Id, product: Id, x: A.Remainder, accepted: seq<OfferRow>, merged: seq<MergedDemand>): seq<LineRow> {
    if x.demand.source.ConfirmedWait? then
      match OfferFor(accepted, x.demand.source.ticket)
      case Some(o) => [WaitLine(run, product, x, o)]
      case None => []
    else
      match MergedFor(merged, x.demand.id)
      case Some(m) => RequestLines(run, x.demand.store, product, m.lines, x.granted)
      case None => []
  }

  function ItemLines(run: Id, product: Id, xs: seq<A.Remainder>, accepted: seq<OfferRow>, merged: seq<MergedDemand>): seq<LineRow> {
    if |xs| == 0 then []
    else ItemLines(run, product, xs[..|xs| - 1], accepted, merged) + RemainderLines(run, product, xs[|xs| - 1], accepted, merged)
  }

  /** All result lines of a run, product by product. */
  function RunLines(run: Id, planned: seq<PlannedItem>, accepted: seq<OfferRow>, merged: seq<MergedDemand>): seq<LineRow> {
    if |planned| == 0 then []
    else
      var p := planned[|planned| - 1];
      RunLines(run, planned[..|planned| - 1], accepted, merged) + ItemLines(run, p.product, p.out.remainders, accepted, merged)
  }

  /** A table that gained the lines of these remainders, or of these products. */
  ghost predicate WithItemLines(before: seq<LineRow>, after: seq<LineRow>, run: Id, product: Id, xs: seq<A.Remainder>,
                                accepted: seq<OfferRow>, merged: seq<MergedDemand>) {
    after == before + ItemLines(run, product, xs, accepted, merged)
  }

  ghost predicate WithRunLines(before: seq<LineRow>, after: seq<LineRow>, run: Id, planned: seq<PlannedItem>,
                               accepted: seq<OfferRow>, merged: seq<MergedDemand>) {
    after == before + RunLines(run, planned, accepted, merged)
  }

  lemma NoItemLines(lines: seq<LineRow>, run: Id, product: Id, xs: seq<A.Remainder>, accepted: seq<OfferRow>, merged: seq<MergedDemand>)
    ensures WithItemLines(lines, lines, run, product, xs[..0], accepted, merged)
  {
  }

  lemma NextItemLines(before: seq<LineRow>, lines: seq<LineRow>, after: seq<LineRow>, run: Id, product: Id, xs: seq<A.Remainder>, i: nat,
                      accepted: seq<OfferRow>, merged: seq<MergedDemand>)
    requires i < |xs| && WithItemLines(before, lines, run, product, xs[..i], accepted, merged)
    requires after == lines + RemainderLines(run, product, xs[i], accepted, merged)
    ensures WithItemLines(before, after, run, product, xs[..i + 1], accepted, merged)
  {
    hide RemainderLines;
    assert xs[..i + 1][..i] == xs[..i];
  }

  lemma NextRunLines(before: seq<LineRow>, lines: seq<LineRow>, after: seq<LineRow>, run: Id, planned: seq<PlannedItem>, k: nat,
                     accepted: seq<OfferRow>, merged: seq<MergedDemand>)
    requires k < |planned| && WithRunLines(before, lines, run, planned[..k], accepted, merged)
    requires WithItemLines(lines, after, run, planned[k].product, planned[k].out.remainders, accepted, merged)
    ensures WithRunLines(before, after, run, planned[..k + 1], accepted, merged)
  {
    hide ItemLines;
    assert planned[..k + 1][..k] == planned[..k];
  }

  /** The line of a confirmed wait among `xs`. */
  ghost predicate IsWaitLine(l: LineRow, run: Id, product: Id, x: A.Remainder, accepted: seq<OfferRow>) {
    x.demand.source.ConfirmedWait? && OfferFor(accepted, x.demand.source.ticket).Some?
    && l == WaitLine(run, product, x, OfferFor(accepted, x.demand.source.ticket).value)
  }

  lemma RemainderLinesAre(run: Id, product: Id, x: A.Remainder, accepted: seq<OfferRow>, merged: seq<MergedDemand>)
    ensures forall l :: l in RemainderLines(run, product, x, accepted, merged) && l.source.ForOffer? ==> IsWaitLine(l, run, product, x, accepted)
    ensures forall l :: IsWaitLine(l, run, product, x, accepted) ==> l in RemainderLines(run, product, x, accepted, merged)
  {
    hide OfferFor, MergedFor, FirstCome;
    if x.demand.source.ConfirmedWait? {
      match OfferFor(accepted, x.demand.source.ticket)
      case Some(o) => assert RemainderLines(run, product, x, accepted, merged) == [WaitLine(run, product, x, o)];
      case None =>
    } else {
      var rows := RemainderLines(run, product, x, accepted, merged);
      forall l | l in rows ensures l.source.ForRequest? {
        var j :| 0 <= j < |rows| && rows[j] == l;
      }
    }
  }

  lemma {:induction false} ItemLinesAre(run: Id, product: Id, xs: seq<A.Remainder>, accepted: seq<OfferRow>, merged: seq<MergedDemand>)
    ensures forall l :: l in ItemLines(run, product, xs, accepted, merged) && l.source.ForOffer? ==>
      exists x :: x in xs && IsWaitLine(l, run, product, x, accepted)
    ensures forall x, l :: x in xs && IsWaitLine(l, run, product, x, accepted) ==> l in ItemLines(run, product, xs, accepted, merged)
  {
    hide IsWaitLine, RemainderLines;
    if |xs| > 0 {
      var front, x := xs[..|xs| - 1], xs[|xs| - 1];
      ItemLinesAre(run, product, front, accepted, merged);
      RemainderLinesAre(run, product, x, accepted, merged);
      assert xs == front + [x];
    }
  }

  /** The lines of offers are those of the confirmed waits. */
  lemma {:induction false} RunLinesAre(run: Id, planned: seq<PlannedItem>, accepted: seq<OfferRow>, merged: seq<MergedDemand>)
    ensures forall l :: l in RunLines(run, planned, accepted, merged) && l.source.ForOffer? ==>
      exists p, x :: p in planned && x in p.out.remainders && IsWaitLine(l, run, p.product, x, accepted)
    ensures forall p, x, l :: p in planned && x in p.out.remainders && IsWaitLine(l, run, p.product, x, accepted) ==>
      l in RunLines(run, planned, accepted, merged)
  {
    hide IsWaitLine, ItemLines;
    if |planned| > 0 {
      var front, p := planned[..|planned| - 1], planned[|planned| - 1];
      RunLinesAre(run, front, accepted, merged);
      ItemLinesAre(run, p.product, p.out.remainders, accepted, merged);
      assert planned == front + [p];
    }
  }

  function Share(s: D.LineShare): nat {
    s.granted
  }

  function Short(s: D.LineShare): nat {
    s.waitlisted
  }

  lemma SharesAre(shares: seq<D.LineShare>)
    ensures Total(shares, Share) == Total(shares, (s: D.LineShare) => s.granted)
    ensures Total(shares, Short) == Total(shares, (s: D.LineShare) => s.waitlisted)
  {
    TotalSame(shares, Share, shares, (s: D.LineShare) => s.granted);
    TotalSame(shares, Short, shares, (s: D.LineShare) => s.waitlisted);
  }

  lemma NothingWritten(db: Db, run: Id, store: Id, product: Id, shares: seq<D.LineShare>)
    ensures Written(db, db, run, store, product, Total(shares[..0], Share), Total(shares[..0], Short))
  {
    hide ActivelyReserved, LineGrants, LineWaits;
    assert shares[..0] == [];
  }

  lemma WrittenTwice(a: Db, b: Db, c: Db, run: Id, store: Id, product: Id, g: nat, w: nat, g': nat, w': nat)
    requires Written(a, b, run, store, product, g, w) && Written(b, c, run, store, product, g', w')
    ensures Written(a, c, run, store, product, g + g', w + w')
  {
    hide ActivelyReserved, LineGrants, LineWaits, Extends;
    ExtendsTwice(a, b, c, run);
  }

  ghost predicate SameElsewhere(a: Balances, b: Balances, product: Id) {
    forall p :: p != product ==> BalanceOf(a, p) == BalanceOf(b, p)
  }

  method FindOffer(accepted: seq<OfferRow>, ticket: Id) returns (r: Option<OfferRow>)
    ensures r == OfferFor(accepted, ticket)
  {
    r := None;
    for i := 0 to |accepted|
      invariant r == OfferFor(accepted[..i], ticket)
    {
      assert accepted[..i + 1][..i] == accepted[..i];
      if accepted[i].ticket == ticket { r := Some(accepted[i]); }
    }
    assert accepted[..|accepted|] == accepted;
  }

  ghost predicate RequestsHaveMerged(merged: seq<MergedDemand>, p: PlannedItem) {
    forall i :: 0 <= i < |p.out.remainders| && !p.out.remainders[i].demand.source.ConfirmedWait? ==> IsMergedOf(merged, p, i)
  }

  ghost predicate IsMergedOf(merged: seq<MergedDemand>, p: PlannedItem, i: nat)
    requires i < |p.out.remainders|
  {
    var d := p.out.remainders[i].demand;
    exists m :: m in merged && m.id == d.id && m.store == d.store && m.product == p.product && d.requested == Sum(D.LineQuantities(m.lines))
  }

  method FindMerged(merged: seq<MergedDemand>, id: Id) returns (r: Option<MergedDemand>)
    ensures r == MergedFor(merged, id)
  {
    r := None;
    for i := 0 to |merged|
      invariant r == MergedFor(merged[..i], id)
    {
      assert merged[..i + 1][..i] == merged[..i];
      if merged[i].id == id { r := Some(merged[i]); }
    }
    assert merged[..|merged|] == merged;
  }

  /** The merged demand of a request remainder is found, with lines worth exactly what it asked for. */
  lemma HasMerged(merged: seq<MergedDemand>, p: PlannedItem, i: nat)
    requires MergedSound(merged) && RequestsHaveMerged(merged, p)
    requires i < |p.out.remainders| && !p.out.remainders[i].demand.source.ConfirmedWait?
    ensures var m := MergedFor(merged, p.out.remainders[i].demand.id);
      m.Some? && p.out.remainders[i].demand.requested == Sum(D.LineQuantities(m.value.lines))
  {
    hide Sum;
    assert IsMergedOf(merged, p, i);
  }

  lemma HasOffer(accepted: seq<OfferRow>, xs: seq<A.Remainder>, i: nat)
    requires WaitsHaveOffers(accepted, xs) && i < |xs| && xs[i].demand.source.ConfirmedWait?
    ensures OfferFor(accepted, xs[i].demand.source.ticket).Some?
  {
  }

  lemma RemaindersAddUp(p: PlannedItem, i: nat)
    requires A.Valid(p.input) && A.IsOutcome(p.input, p.out) && i < |p.out.remainders|
    ensures p.out.remainders[i].granted + p.out.remainders[i].remaining == p.out.remainders[i].demand.requested
  {
  }

  lemma GrantedIsSum(p: PlannedItem)
    requires A.Valid(p.input) && A.IsOutcome(p.input, p.out)
    ensures p.out.granted == Sum(A.Granted(p.out.remainders))
  {
  }

  /** What writing a product's whole result changes. */
  ghost predicate ItemWritten(before: Db, after: Db, run: Id, p: PlannedItem) {
    && Extends(before, after, run)
    && (forall q :: ActivelyReserved(after.reservations, q)
                    == ActivelyReserved(before.reservations, q) + if q == p.product then Sum(A.Granted(p.out.remainders)) else 0)
    && (forall s, q :: LineGrants(after.lines, s, q) == LineGrants(before.lines, s, q) + ItemGrants(s, q)(p))
    && (forall s, q :: LineWaits(after.lines, s, q) == LineWaits(before.lines, s, q) + ItemWaits(s, q)(p))
  }

  /** The same for its first `n` remainders. */
  ghost predicate SoFarWritten(before: Db, after: Db, run: Id, p: PlannedItem, n: nat)
    requires n <= |p.out.remainders|
  {
    var xs := p.out.remainders;
    && Extends(before, after, run)
    && (forall q :: ActivelyReserved(after.reservations, q)
                    == ActivelyReserved(before.reservations, q) + if q == p.product then Sum(A.Granted(xs)[..n]) else 0)
    && (forall s, q :: LineGrants(after.lines, s, q) == LineGrants(before.lines, s, q) + if q == p.product then Total(xs[..n], StoreGranted(s)) else 0)
    && (forall s, q :: LineWaits(after.lines, s, q) == LineWaits(before.lines, s, q) + if q == p.product then Total(xs[..n], StoreRemaining(s)) else 0)
  }

  lemma NothingYet(db: Db, run: Id, p: PlannedItem)
    ensures forall t: Id :: TicketGrant(p.out.remainders[..0], t) == 0
    ensures db.tickets == ServedTickets(db.tickets, p.out.remainders[..0])
    ensures SoFarWritten(db, db, run, p, 0)
  {
    hide ActivelyReserved, LineGrants, LineWaits;
    var xs := p.out.remainders;
    assert Sum(A.Granted(xs)[..0]) == 0;
    assert forall s :: Total(xs[..0], StoreGranted(s)) == 0 && Total(xs[..0], StoreRemaining(s)) == 0;
  }

  lemma NextWritten(start: Db, before: Db, after: Db, run: Id, p: PlannedItem, i: nat)
    requires i < |p.out.remainders| && SoFarWritten(start, before, run, p, i)
    requires var x := p.out.remainders[i]; Written(before, after, run, x.demand.store, p.product, x.granted, x.remaining)
    ensures SoFarWritten(start, after, run, p, i + 1)
  {
    hide ActivelyReserved, LineGrants, LineWaits, Extends;
    ExtendsTwice(start, before, after, run);
    var xs := p.out.remainders;
    SumTake(A.Granted(xs), i);
    assert xs[..i + 1][..i] == xs[..i];
    forall s
      ensures Total(xs[..i + 1], StoreGranted(s)) == Total(xs[..i], StoreGranted(s)) + StoreGranted(s)(xs[i])
      ensures Total(xs[..i + 1], StoreRemaining(s)) == Total(xs[..i], StoreRemaining(s)) + StoreRemaining(s)(xs[i])
    {
    }
  }

  lemma AllWritten(before: Db, after: Db, run: Id, p: PlannedItem)
    requires SoFarWritten(before, after, run, p, |p.out.remainders|)
    ensures ItemWritten(before, after, run, p)
  {
    hide ActivelyReserved, LineGrants, LineWaits, Total, Extends;
    assert p.out.remainders[..|p.out.remainders|] == p.out.remainders;
    assert A.Granted(p.out.remainders)[..|p.out.remainders|] == A.Granted(p.out.remainders);
  }

  lemma NextWait(product: Id, xs: seq<A.Remainder>, i: nat)
    requires i < |xs|
    ensures WaitRemainders(product, xs[..i + 1]) == WaitRemainders(product, xs[..i])
      + if !xs[i].demand.source.ConfirmedWait? && xs[i].remaining > 0 then [WaitRemainder(xs[i].demand.store, product, xs[i].remaining)] else []
  {
    assert xs[..i + 1][..i] == xs[..i];
  }

  // ---------------------------------------------------------------------------------------------
  // Product after product
  // ---------------------------------------------------------------------------------------------

  /** A product's plan can be written: its waits and requests have their rows. */
  ghost predicate Ready(p: PlannedItem, tickets: seq<TicketRow>, accepted: seq<OfferRow>, merged: seq<MergedDemand>) {
    && A.Valid(p.input) && A.IsOutcome(p.input, p.out)
    && Feasible(tickets, p.product, p.out.remainders)
    && WaitsHaveOffers(accepted, p.out.remainders) && RequestsHaveMerged(merged, p)
  }

  ghost predicate AllPlanned(planned: seq<PlannedItem>, tickets: seq<TicketRow>, accepted: seq<OfferRow>, merged: seq<MergedDemand>) {
    forall p :: p in planned ==> Ready(p, tickets, accepted, merged)
  }

  ghost predicate RoomForAll(balances: Balances, kept: map<Id, nat>, planned: seq<PlannedItem>) {
    forall p :: p in planned ==> Room(balances, kept, p)
  }

  ghost predicate KeptOnlyFor(kept: map<Id, nat>, planned: seq<PlannedItem>) {
    forall q :: (forall p :: p in planned ==> p.product != q) ==> AtKey(kept, q) == 0
  }

  /** Bags granted to a ticket by all products together. */
  function PlanGrant(planned: seq<PlannedItem>, ticket: Id): nat {
    Total(planned, (p: PlannedItem) => TicketGrant(p.out.remainders, ticket))
  }

  /** Every ticket was served what the plan grants it, and no more than it waited for. */
  ghost predicate AllServed(before: seq<TicketRow>, after: seq<TicketRow>, planned: seq<PlannedItem>) {
    |after| == |before| && forall t: nat :: t < |before| ==> IsServed(before[t], after[t], PlanGrant(planned, t))
  }

  ghost predicate IsServed(before: TicketRow, after: TicketRow, g: nat) {
    g <= before.remaining && (g > 0 ==> before.status == Waiting) && after == ServedTicket(before, g)
  }

  /** The plans from `k` on still fit and are still ready; those before no longer keep anything. */
  ghost predicate StillToCome(balances: Balances, tickets: seq<TicketRow>, kept: map<Id, nat>, pending: map<Id, nat>,
                              planned: seq<PlannedItem>, accepted: seq<OfferRow>, merged: seq<MergedDemand>, k: nat) {
    && ProductsDistinct(planned) && KeptOnlyFor(kept, planned)
    && (forall j :: k <= j < |planned| ==>
          Room(balances, pending, planned[j]) && Ready(planned[j], tickets, accepted, merged)
          && AtKey(pending, planned[j].product) == AtKey(kept, planned[j].product))
    && (forall j :: 0 <= j < k && j < |planned| ==> AtKey(pending, planned[j].product) == 0)
    && (forall q :: AtKey(pending, q) <= AtKey(kept, q))
  }

  lemma StartOfItems(db: Db, run: Id, planned: seq<PlannedItem>, accepted: seq<OfferRow>, merged: seq<MergedDemand>, kept: map<Id, nat>)
    requires RoomForAll(db.balances, kept, planned) && KeptOnlyFor(kept, planned)
    requires AllPlanned(planned, db.tickets, accepted, merged) && ProductsDistinct(planned)
    ensures StillToCome(db.balances, db.tickets, kept, kept, planned, accepted, merged, 0)
    ensures AllServed(db.tickets, db.tickets, planned[..0]) && SameOnHand(db.balances, db.balances)
    ensures Tallied(db, db, run, planned[..0]) && WithRunLines(db.lines, db.lines, run, planned[..0], accepted, merged)
  {
    hide Room, Ready, LineGrants, LineWaits, ActivelyReserved;
    assert planned[..0] == [];
    forall t: nat | t < |db.tickets| ensures IsServed(db.tickets[t], db.tickets[t], PlanGrant(planned[..0], t)) {
    }
  }

  lemma ItemIsReady(balances: Balances, tickets: seq<TicketRow>, kept: map<Id, nat>, pending: map<Id, nat>,
                    planned: seq<PlannedItem>, accepted: seq<OfferRow>, merged: seq<MergedDemand>, k: nat)
    requires StillToCome(balances, tickets, kept, pending, planned, accepted, merged, k) && k < |planned|
    ensures var p := planned[k];
      Room(balances, pending, p) && Ready(p, tickets, accepted, merged) && AtKey(pending, p.product) == AtKey(kept, p.product)
  {
  }

  lemma OthersStillToCome(before: Db, after: Db, kept: map<Id, nat>, pending: map<Id, nat>,
                          planned: seq<PlannedItem>, accepted: seq<OfferRow>, merged: seq<MergedDemand>, k: nat)
    requires StillToCome(before.balances, before.tickets, kept, pending, planned, accepted, merged, k) && k < |planned|
    requires forall t: nat :: t < |before.tickets| ==> TicketGrant(planned[k].out.remainders, t) <= before.tickets[t].remaining
    requires after.tickets == ServedTickets(before.tickets, planned[k].out.remainders)
    requires SameElsewhere(after.balances, before.balances, planned[k].product)
    ensures StillToCome(after.balances, after.tickets, kept, pending[planned[k].product := 0], planned, accepted, merged, k + 1)
  {
    hide A.Valid, A.IsOutcome, Feasible, WaitsHaveOffers, RequestsHaveMerged, TicketGrant, ServedTickets;
    var p, pending' := planned[k], pending[planned[k].product := 0];
    assert Ready(p, before.tickets, accepted, merged);
    forall j | k + 1 <= j < |planned|
      ensures Room(after.balances, pending', planned[j]) && Ready(planned[j], after.tickets, accepted, merged)
      ensures AtKey(pending', planned[j].product) == AtKey(kept, planned[j].product)
    {
      assert Room(before.balances, pending, planned[j]) && Ready(planned[j], before.tickets, accepted, merged);
      assert planned[j].product != p.product;
      OthersStayFeasible(before.tickets, p.product, p.out.remainders, planned[j].product, planned[j].out.remainders);
    }
  }

  lemma ServedByOneMore(start: seq<TicketRow>, before: seq<TicketRow>, after: seq<TicketRow>, planned: seq<PlannedItem>, k: nat)
    requires k < |planned| && AllServed(start, before, planned[..k])
    requires Feasible(before, planned[k].product, planned[k].out.remainders)
    requires forall t: nat :: t < |before| ==> TicketGrant(planned[k].out.remainders, t) <= before[t].remaining
    requires after == ServedTickets(before, planned[k].out.remainders)
    ensures AllServed(start, after, planned[..k + 1])
  {
    hide TicketGrant, Total;
    var xs := planned[k].out.remainders;
    forall t: nat | t < |start| ensures IsServed(start[t], after[t], PlanGrant(planned[..k + 1], t)) {
      TotalTake(planned, k, (p: PlannedItem) => TicketGrant(p.out.remainders, t));
      assert IsServed(start[t], before[t], PlanGrant(planned[..k], t));
      assert GrantStands(before, t, TicketGrant(xs, t));
      ServedAgain(start[t], PlanGrant(planned[..k], t), TicketGrant(xs, t));
    }
  }

  /** What the results of these products change in result lines and reservations. */
  ghost predicate Tallied(before: Db, after: Db, run: Id, planned: seq<PlannedItem>) {
    && Extends(before, after, run)
    && (forall q :: ActivelyReserved(after.reservations, q) == ActivelyReserved(before.reservations, q) + Total(planned, ItemReserved(q)))
    && (forall s, q :: LineGrants(after.lines, s, q) == LineGrants(before.lines, s, q) + Total(planned, ItemGrants(s, q)))
    && (forall s, q :: LineWaits(after.lines, s, q) == LineWaits(before.lines, s, q) + Total(planned, ItemWaits(s, q)))
  }

  lemma OneMoreItem(start: Db, before: Db, after: Db, run: Id, planned: seq<PlannedItem>, k: nat)
    requires k < |planned| && Tallied(start, before, run, planned[..k]) && ItemWritten(before, after, run, planned[k])
    ensures Tallied(start, after, run, planned[..k + 1]) && before.lines <= after.lines
  {
    hide Total, LineGrants, LineWaits, ItemGrants, ItemWaits, ActivelyReserved, Sum;
    ExtendsTwice(start, before, after, run);
    var front, through := planned[..k], planned[..k + 1];
    forall q ensures ActivelyReserved(after.reservations, q) == ActivelyReserved(start.reservations, q) + Total(through, ItemReserved(q)) {
      TotalTake(planned, k, ItemReserved(q));
    }
    forall s, q ensures LineGrants(after.lines, s, q) == LineGrants(start.lines, s, q) + Total(through, ItemGrants(s, q)) {
      TotalTake(planned, k, ItemGrants(s, q));
    }
    forall s, q ensures LineWaits(after.lines, s, q) == LineWaits(start.lines, s, q) + Total(through, ItemWaits(s, q)) {
      TotalTake(planned, k, ItemWaits(s, q));
    }
  }

  lemma NothingToCome(balances: Balances, tickets: seq<TicketRow>, kept: map<Id, nat>, pending: map<Id, nat>,
                      planned: seq<PlannedItem>, accepted: seq<OfferRow>, merged: seq<MergedDemand>)
    requires StillToCome(balances, tickets, kept, pending, planned, accepted, merged, |planned|)
    ensures forall q :: AtKey(pending, q) == 0
  {
    forall q ensures AtKey(pending, q) == 0 {
      if exists j :: 0 <= j < |planned| && planned[j].product == q {
      } else {
        assert AtKey(kept, q) == 0;
      }
    }
  }

  lemma SameOnHandTwice(a: Balances, b: Balances, c: Balances)
    requires SameOnHand(b, a) && SameOnHand(c, b)
    ensures SameOnHand(c, a)
  {
  }

  /** Tickets only gain, and only those that wait: what such a ticket waits for grows with its demand. */
  ghost predicate Grown(before: seq<TicketRow>, after: seq<TicketRow>) {
    |before| <= |after| && forall t :: 0 <= t < |before| ==> GrewBy(before[t], after[t], after[t].original - before[t].original)
  }

  ghost predicate GrewBy(before: TicketRow, after: TicketRow, g: int) {
    && g >= 0 && after == before.(original := before.original + g, remaining := before.remaining + g)
    && (before.status != Waiting ==> g == 0)
  }

  /** Tickets from `from` on were opened now, and received nothing yet. */
  ghost predicate Opened(tickets: seq<TicketRow>, from: nat, now: Instant) {
    forall t :: from <= t < |tickets| ==>
      tickets[t].status == Waiting && tickets[t].queuedAt == now && tickets[t].fulfilled == 0
  }

  lemma NoWaits()
    ensures forall s, p :: Total([], WaitOf(s, p)) == 0
  {
  }

  lemma NextWaits(waits: seq<WaitRemainder>, i: nat)
    requires i < |waits|
    ensures forall s, p :: Total(waits[..i + 1], WaitOf(s, p)) == Total(waits[..i], WaitOf(s, p)) + WaitOf(s, p)(waits[i])
  {
    forall s, p ensures Total(waits[..i + 1], WaitOf(s, p)) == Total(waits[..i], WaitOf(s, p)) + WaitOf(s, p)(waits[i]) {
      TotalTake(waits, i, WaitOf(s, p));
    }
  }
}
