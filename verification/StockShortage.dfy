/** Shortages that a store declares on goods it was sent: the wait they came from opens again, and
demand that waited meanwhile is folded into it. */
module StockShortage {
  import opened Common
  import opened Quantities
  import opened StockTables
  import opened StockSnapshot
  import opened StockRun
  import opened StockOffers
  import opened StockFinal
  import opened LiveOffers
  import A = Allocation

  // ---------------------------------------------------------------------------------------------
  // Declaring a shortage
  // ---------------------------------------------------------------------------------------------

  predicate WaitsFor(t: TicketRow, store: Id, product: Id) {
    t.status == Waiting && t.store == store && t.product == product
  }

  /** The wait of a store for a product. */
  function ActiveWait(tickets: seq<TicketRow>, store: Id, product: Id): (r: Option<nat>)
    ensures r.Some? ==> r.value < |tickets| && WaitsFor(tickets[r.value], store, product)
    ensures r.None? ==> forall t :: 0 <= t < |tickets| ==> !WaitsFor(tickets[t], store, product)
  {
    if |tickets| == 0 then None
    else if WaitsFor(tickets[|tickets| - 1], store, product) then Some(|tickets| - 1)
    else ActiveWait(tickets[..|tickets| - 1], store, product)
  }

  lemma OneWait(tickets: seq<TicketRow>, store: Id, product: Id, t: nat)
    requires TicketsSound(tickets) && t < |tickets| && WaitsFor(tickets[t], store, product)
    ensures ActiveWait(tickets, store, product) == Some(t)
  {
    hide ActiveWait;
  }

  predicate HasSource(line: LineRow, tickets: seq<TicketRow>) {
    line.source.ForOffer? ==> line.source.ticket < |tickets|
  }

  /** The wait that the goods of a line came from, unless it was cancelled for good. */
  function SourceWait(line: LineRow, tickets: seq<TicketRow>): Option<nat>
    requires HasSource(line, tickets)
  {
    if line.source.ForOffer? && tickets[line.source.ticket].status != Cancelled then Some(line.source.ticket) else None
  }

  datatype Shortage = Uncovered | Restore(ticket: nat) | Merge(source: nat, active: nat) | Extend(ticket: nat) | Open

  function PlanShortage(tickets: seq<TicketRow>, line: LineRow, shortage: nat): Shortage
    requires HasSource(line, tickets)
  {
    match (SourceWait(line, tickets), ActiveWait(tickets, line.store, line.product))
    case (Some(s), active) =>
      if tickets[s].fulfilled < shortage then Uncovered
      else if active.None? || active == Some(s) then Restore(s)
      else Merge(s, active.value)
    case (None, Some(a)) => Extend(a)
    case (None, None) => Open
  }

  /** The wait open again for what did not arrive, and for `more` that another one waited for. */
  function Reopened(t: TicketRow, shortage: nat, more: nat, queuedAt: Instant): TicketRow
    requires shortage <= t.fulfilled
  {
    t.(original := t.original + more, remaining := t.remaining + shortage + more, fulfilled := t.fulfilled - shortage,
       queuedAt := queuedAt, status := Waiting)
  }

  function Earlier(a: Instant, b: Instant): Instant {
    if a <= b then a else b
  }

  /** The tickets once a shortage is declared. */
  function Declared(tickets: seq<TicketRow>, line: LineRow, shortage: nat, now: Instant): seq<TicketRow>
    requires HasSource(line, tickets) && !PlanShortage(tickets, line, shortage).Uncovered?
  {
    match PlanShortage(tickets, line, shortage)
    case Restore(s) => tickets[s := Reopened(tickets[s], shortage, 0, tickets[s].queuedAt)]
    case Merge(s, a) =>
      tickets[a := tickets[a].(status := Folded)]
             [s := Reopened(tickets[s], shortage, tickets[a].remaining, Earlier(tickets[s].queuedAt, tickets[a].queuedAt))]
    case Extend(a) => tickets[a := tickets[a].(original := tickets[a].original + shortage, remaining := tickets[a].remaining + shortage)]
    case Open => tickets + [TicketRow(line.store, line.product, shortage, shortage, 0, now, Waiting)]
    case Uncovered => tickets
  }

  lemma LineHasSource(db: Db, line: LineRow)
    requires Inv(db) && line in db.lines
    ensures HasSource(line, db.tickets) && TicketsSound(db.tickets)
  {
    assert line.source.ForOffer? ==> IsPlaced(line, db.tickets);
  }

  /** Rows of a ticket stay of their store and product. */
  lemma DeclaredKeepsKeys(tickets: seq<TicketRow>, line: LineRow, shortage: nat, now: Instant)
    requires HasSource(line, tickets) && !PlanShortage(tickets, line, shortage).Uncovered?
    ensures var after := Declared(tickets, line, shortage, now);
      |tickets| <= |after| && forall t :: 0 <= t < |tickets| ==> after[t].store == tickets[t].store && after[t].product == tickets[t].product
  {
    hide ActiveWait;
  }

  lemma DeclaredIsSound(tickets: seq<TicketRow>, line: LineRow, shortage: nat, now: Instant)
    requires TicketsSound(tickets) && HasSource(line, tickets) && (line.source.ForOffer? ==> IsPlaced(line, tickets))
    requires !PlanShortage(tickets, line, shortage).Uncovered? && shortage > 0
    ensures TicketsSound(Declared(tickets, line, shortage, now))
  {
    hide ActiveWait;
    var after := Declared(tickets, line, shortage, now);
    forall t | 0 <= t < |after| ensures TicketSound(after[t]) {
      if t < |tickets| { assert tickets[t] in tickets; }
    }
    forall x | x in after ensures TicketSound(x) {
      var t :| 0 <= t < |after| && after[t] == x;
    }
  }

  /** Goods of a wait that was not cancelled for good open it again: it takes back the shortage, and takes
  over what another wait of the store for the product lacks, with its age when that is older; the other
  one is folded away.  Other goods are asked for again by the store's wait, or by a new one.  The wait of
  the goods must have received as much as is missing. */
  lemma ShortageGoesTo(tickets: seq<TicketRow>, line: LineRow, shortage: nat, now: Instant)
    requires TicketsSound(tickets) && HasSource(line, tickets) && (line.source.ForOffer? ==> IsPlaced(line, tickets))
    ensures var reopens := line.source.ForOffer? && tickets[line.source.ticket].status != Cancelled;
      && (PlanShortage(tickets, line, shortage).Uncovered? <==> reopens && tickets[line.source.ticket].fulfilled < shortage)
      && (!PlanShortage(tickets, line, shortage).Uncovered? ==>
            var after := Declared(tickets, line, shortage, now);
            && |tickets| <= |after|
            && (forall t :: 0 <= t < |tickets| && !(reopens && t == line.source.ticket) ==>
                  var w := tickets[t];
                  after[t] == if w.status != Waiting || w.store != line.store || w.product != line.product then w
                              else if reopens then w.(status := Folded)
                              else w.(original := w.original + shortage, remaining := w.remaining + shortage))
            && (reopens ==>
                  var s, w := line.source.ticket, tickets[line.source.ticket];
                  && |after| == |tickets| && after[s].fulfilled == w.fulfilled - shortage && after[s].status == Waiting
                  && after[s].store == w.store && after[s].product == w.product
                  && (forall a :: 0 <= a < |tickets| && a != s && tickets[a].status == Waiting
                                  && tickets[a].store == line.store && tickets[a].product == line.product ==>
                        && after[s].original == w.original + tickets[a].remaining
                        && after[s].remaining == w.remaining + shortage + tickets[a].remaining
                        && after[s].queuedAt == Min(w.queuedAt, tickets[a].queuedAt))
                  && ((forall a :: 0 <= a < |tickets| && a != s && tickets[a].status == Waiting ==>
                         tickets[a].store != line.store || tickets[a].product != line.product) ==>
                        && after[s].original == w.original && after[s].remaining == w.remaining + shortage && after[s].queuedAt == w.queuedAt))
            && (!reopens ==>
                  if exists a :: 0 <= a < |tickets| && tickets[a].status == Waiting && tickets[a].store == line.store && tickets[a].product == line.product
                  then |after| == |tickets|
                  else |after| == |tickets| + 1
                       && after[|tickets|] == TicketRow(line.store, line.product, shortage, shortage, 0, now, Waiting)))
  {
    hide ActiveWait, TicketSound;
    if a :| 0 <= a < |tickets| && WaitsFor(tickets[a], line.store, line.product) {
      OneWait(tickets, line.store, line.product, a);
    }
  }

  // ---------------------------------------------------------------------------------------------
  // What the store waits for afterwards
  // ---------------------------------------------------------------------------------------------

  function OpenOf(store: Id, product: Id): TicketRow -> nat {
    (t: TicketRow) => if WaitsFor(t, store, product) then t.remaining else 0
  }

  /** What a store waits for, by product. */
  function OpenDemand(tickets: seq<TicketRow>, store: Id, product: Id): nat {
    Total(tickets, OpenOf(store, product))
  }

  /** The source was merged into another wait: its remaining demand is already there. */
  predicate ReopensFolded(tickets: seq<TicketRow>, line: LineRow)
    requires HasSource(line, tickets)
  {
    line.source.ForOffer? && tickets[line.source.ticket].status == Folded
  }

  /** A declaration adds the shortage to what the store waits for; reopening a merged wait counts its old
  demand a second time. */
  lemma DeclaredDemand(tickets: seq<TicketRow>, line: LineRow, shortage: nat, now: Instant)
    requires TicketsSound(tickets) && HasSource(line, tickets) && (line.source.ForOffer? ==> IsPlaced(line, tickets))
    requires !PlanShortage(tickets, line, shortage).Uncovered?
    ensures var again := if ReopensFolded(tickets, line) then tickets[line.source.ticket].remaining else 0;
      forall s, p :: OpenDemand(Declared(tickets, line, shortage, now), s, p)
                  == OpenDemand(tickets, s, p) + if s == line.store && p == line.product then shortage + again else 0
  {
    hide ActiveWait, Total;
    var after := Declared(tickets, line, shortage, now);
    var again := if ReopensFolded(tickets, line) then tickets[line.source.ticket].remaining else 0;
    forall s, p ensures OpenDemand(after, s, p) == OpenDemand(tickets, s, p) + if s == line.store && p == line.product then shortage + again else 0 {
      var f := OpenOf(s, p);
      match PlanShortage(tickets, line, shortage)
      case Restore(t) =>
        assert tickets[t] in tickets;
        TotalSet(tickets, t, after[t], f);
      case Merge(t, a) =>
        assert tickets[t] in tickets;
        var folded := tickets[a := tickets[a].(status := Folded)];
        TotalSet(tickets, a, folded[a], f);
        TotalSet(folded, t, after[t], f);
      case Extend(a) =>
        TotalSet(tickets, a, after[a], f);
      case Open =>
        TotalPush(tickets, after[|tickets|], f);
    }
  }

  /** The store waits for exactly the shortage more if and only if its goods did not come from a merged wait. */
  lemma ShortageCountsOnce(tickets: seq<TicketRow>, line: LineRow, shortage: nat, now: Instant)
    requires TicketsSound(tickets) && HasSource(line, tickets) && (line.source.ForOffer? ==> IsPlaced(line, tickets))
    requires !PlanShortage(tickets, line, shortage).Uncovered?
    ensures OpenDemand(Declared(tickets, line, shortage, now), line.store, line.product)
            == OpenDemand(tickets, line.store, line.product) + shortage
      <==> !ReopensFolded(tickets, line)
  {
    DeclaredDemand(tickets, line, shortage, now);
    hide OpenDemand, PlanShortage, Declared;
    if ReopensFolded(tickets, line) { assert tickets[line.source.ticket] in tickets; }
  }

  /** Two shortages, one on the goods of each of two waits: the second one asks for what the first merged. */
  lemma MergedDemandCountsTwice()
    ensures
      var tickets := [TicketRow(7, 3, 5, 0, 5, 10, Fulfilled), TicketRow(7, 3, 5, 3, 2, 20, Waiting)];
      var first, second := LineRow(1, 7, 3, ForOffer(0, 50), 5, 5, 0), LineRow(2, 7, 3, ForOffer(1, 51), 5, 2, 3);
      && TicketsSound(tickets) && PlanShortage(tickets, first, 1) == Merge(0, 1)
      && var merged := Declared(tickets, first, 1, 30);
      && TicketsSound(merged) && OpenDemand(merged, 7, 3) == 4
      && PlanShortage(merged, second, 1) == Merge(1, 0)
      && OpenDemand(Declared(merged, second, 1, 40), 7, 3) == 8
  {
    var tickets := [TicketRow(7, 3, 5, 0, 5, 10, Fulfilled), TicketRow(7, 3, 5, 3, 2, 20, Waiting)];
    var first, second := LineRow(1, 7, 3, ForOffer(0, 50), 5, 5, 0), LineRow(2, 7, 3, ForOffer(1, 51), 5, 2, 3);
    assert TicketsSound(tickets);
    OneWait(tickets, 7, 3, 1);
    var merged := Declared(tickets, first, 1, 30);
    DeclaredIsSound(tickets, first, 1, 30);
    DeclaredDemand(tickets, first, 1, 30);
    OneWait(merged, 7, 3, 0);
    DeclaredDemand(merged, second, 1, 40);
    assert tickets == [tickets[0]] + [tickets[1]];
    TotalPush([tickets[0]], tickets[1], OpenOf(7, 3));
    TotalPush([], tickets[0], OpenOf(7, 3));
    assert [] + [tickets[0]] == [tickets[0]];
  }

  // ---------------------------------------------------------------------------------------------
  // Accepted offers
  // ---------------------------------------------------------------------------------------------

  /** An accepted offer of the ticket waits for a run. */
  predicate AwaitsRun(t: nat, offers: seq<OfferRow>, lines: seq<LineRow>) {
    exists o :: o in offers && o.ticket == t && o.status == Accepted && !IsAllocated(lines, o.id)
  }

  /** A declaration leaves every accepted offer its wait, unless it folds one away. */
  lemma DeclaredKeepsStanding(offers: seq<OfferRow>, lines: seq<LineRow>, tickets: seq<TicketRow>, line: LineRow, shortage: nat, now: Instant)
    requires HasSource(line, tickets) && !PlanShortage(tickets, line, shortage).Uncovered?
    requires AcceptedStand(offers, lines, tickets)
    ensures var plan := PlanShortage(tickets, line, shortage);
      AcceptedStand(offers, lines, Declared(tickets, line, shortage, now)) <==> !(plan.Merge? && AwaitsRun(plan.active, offers, lines))
  {
    hide ActiveWait, IsAllocated;
    var plan, after := PlanShortage(tickets, line, shortage), Declared(tickets, line, shortage, now);
    if plan.Merge? && AwaitsRun(plan.active, offers, lines) {
      var o :| o in offers && o.ticket == plan.active && o.status == Accepted && !IsAllocated(lines, o.id);
      assert !Stands(o, after);
    } else {
      forall o | o in offers && o.status == Accepted && !IsAllocated(lines, o.id) ensures Stands(o, after) {
        assert Stands(o, tickets);
      }
    }
  }

  /** A final run finds a changed wait exactly when an accepted offer of its session had lost its wait
  before: its own expiry takes none away. */
  lemma WaitChangedWhen(db: Db, row: SessionRow, session: Session, input: RunInput)
    requires Inv(db)
    ensures RunFailure(db, row, session, input) == Some(WaitChanged)
      <==> Matches(row, session) && session.id in db.snapshots && !WaitsStand(db.offers, db.lines, db.tickets, session.id)
  {
    hide Stocked, TicketsSound, ReservationsSound, ShipmentsSound, SnapshotsSound, ClaimsSound, IsAllocated, A.Valid, AllocatorInput, Full, Matches,
         Released, Expiring;
    var mid := AfterExpiry(db, session);
    var lapsed := Expiring(db.offers, session);
    forall o | o in db.offers && Owned(o, db.lines, session.id)
      ensures o in mid.offers && (Stands(o, db.tickets) <==> Stands(o, mid.tickets))
      ensures session.id in db.snapshots && db.snapshots[session.id] != []
    {
      var i :| 0 <= i < |db.offers| && db.offers[i] == o;
      assert mid.offers[i] == o;
      assert Listed(o, db.snapshots) && OfferSound(o, db.tickets);
      assert Live(o, db.lines);
    }
    forall o | o in mid.offers && Owned(o, mid.lines, session.id) ensures o in db.offers {
      var i :| 0 <= i < |mid.offers| && mid.offers[i] == o;
      assert db.offers[i] == o;
    }
  }

  /** The first of these that holds fails a run, and nothing else does: the session is not the stored one or
  may not run; it has no snapshot; an accepted offer lost its wait; the allocator refuses a product's
  input; a product is asked for that the snapshot does not list. */
  lemma RunFailsInOrder(db: Db, row: SessionRow, session: Session, input: RunInput)
    requires Inv(db)
    ensures RunFailure(db, row, session, input) ==
      if row.session != session || !row.runnable then Some(SessionChanged)
      else if session.id !in db.snapshots then Some(SnapshotMissing)
      else if exists o :: o in db.offers && o.session == session.id && o.status == Accepted && !IsAllocated(db.lines, o.id)
                       && (db.tickets[o.ticket].status != Waiting || db.tickets[o.ticket].remaining < o.accepted)
      then Some(WaitChanged)
      else if exists item :: item in db.snapshots[session.id] && !A.Valid(AllocatorInput(AfterExpiry(db, session), session.id, input, item))
      then Some(AllocatorRefused)
      else if exists m :: m in input.merged && forall item :: item in db.snapshots[session.id] ==> item.product != m.product
      then Some(DemandWithoutSnapshot)
      else None
  {
    WaitChangedWhen(db, row, session, input);
    hide Stocked, TicketsSound, ReservationsSound, ShipmentsSound, SnapshotsSound, ClaimsSound, IsAllocated, A.Valid, AllocatorInput, AfterExpiry;
    assert forall o :: o in db.offers ==> OfferSound(o, db.tickets);
  }

  /** While accepted offers stand, no session's run finds a changed wait; and only then. */
  lemma StandingRunsProceed(db: Db, input: RunInput)
    requires Inv(db)
    ensures Standing(db) <==> forall row, session :: RunFailure(db, row, session, input) != Some(WaitChanged)
  {
    hide Inv, IsAllocated, RunFailure, Stands, Matches;
    forall row, session ensures RunFailure(db, row, session, input) == Some(WaitChanged)
      <==> Matches(row, session) && session.id in db.snapshots && !WaitsStand(db.offers, db.lines, db.tickets, session.id)
    {
      WaitChangedWhen(db, row, session, input);
    }
    if !Standing(db) {
      var o :| o in db.offers && o.status == Accepted && !IsAllocated(db.lines, o.id) && !Stands(o, db.tickets);
      var session := Session(o.session, 0, 0, 0, 0);
      assert Matches(SessionRow(session, true), session) by { MatchesItself(session); }
      assert session.id in db.snapshots by { OffersAreListed(db, o); }
    }
  }

  lemma MatchesItself(session: Session)
    ensures Matches(SessionRow(session, true), session)
  {
  }

  lemma OffersAreListed(db: Db, o: OfferRow)
    requires Inv(db) && o in db.offers
    ensures o.session in db.snapshots
  {
    assert Listed(o, db.snapshots);
  }

  /** Folding a wait that an accepted offer is for stops the final run of that offer's session, whatever
  else the run is given. */
  lemma MergeStopsRun(db: Db, line: LineRow, shortage: nat, now: Instant, o: OfferRow, row: SessionRow, session: Session, input: RunInput)
    requires Inv(db) && line in db.lines && HasSource(line, db.tickets) && shortage > 0
    requires PlanShortage(db.tickets, line, shortage).Merge? && o.ticket == PlanShortage(db.tickets, line, shortage).active
    requires o in db.offers && o.status == Accepted && !IsAllocated(db.lines, o.id) && o.session == session.id && Matches(row, session)
    ensures var after := db.(tickets := Declared(db.tickets, line, shortage, now));
      Inv(after) && RunFailure(after, row, session, input) == Some(WaitChanged)
  {
    var after := db.(tickets := Declared(db.tickets, line, shortage, now));
    DeclaredKeepsInv(db, line, shortage, now);
    WaitChangedWhen(after, row, session, input);
    OffersAreListed(db, o);
    assert !Stands(o, after.tickets);
    hide RunFailure, Inv, Matches, Declared, PlanShortage, Stands, IsAllocated;
  }

  lemma DeclaredKeepsInv(db: Db, line: LineRow, shortage: nat, now: Instant)
    requires Inv(db) && line in db.lines && HasSource(line, db.tickets) && shortage > 0
    requires !PlanShortage(db.tickets, line, shortage).Uncovered?
    ensures Inv(db.(tickets := Declared(db.tickets, line, shortage, now)))
  {
    var after := Declared(db.tickets, line, shortage, now);
    DeclaredKeepsKeys(db.tickets, line, shortage, now);
    DeclaredIsSound(db.tickets, line, shortage, now);
    hide Declared, PlanShortage, Stocked, TicketsSound, OffersSound, ReservationsSound, ShipmentsSound, SnapshotsSound, ClaimsSound;
    TicketsReplaced(db.offers, db.tickets, after, db.snapshots);
    TicketsKeepClaims(db.offers, db.lines, db.tickets, after, db.clock);
  }

  // ---------------------------------------------------------------------------------------------
  // Correcting a declared shortage
  // ---------------------------------------------------------------------------------------------

  datatype Correction = AlreadyGone | NotQueued | OfferIsLive | Corrected(ticket: nat)

  /** `gone`: a wait of the store and product was cancelled after the shortage was declared. */
  function PlanCorrection(tickets: seq<TicketRow>, offers: seq<OfferRow>, lines: seq<LineRow>, line: LineRow, quantity: nat, gone: bool): Correction {
    if gone then AlreadyGone
    else
      match ActiveWait(tickets, line.store, line.product)
      case None => NotQueued
      case Some(a) =>
        if tickets[a].remaining < quantity || (line.source.ForOffer? && a != line.source.ticket) then NotQueued
        else if exists o :: o in offers && o.ticket == a && Live(o, lines) then OfferIsLive
        else Corrected(a)
  }

  function LeftWaiting(t: TicketRow): TicketRow {
    t.(status := if t.remaining == 0 then Fulfilled else Waiting)
  }

  /** The wait without a shortage that did arrive: goods of the wait itself are fulfilled again, a
  shortage queued on its own leaves the wait. */
  function CorrectedRow(t: TicketRow, line: LineRow, quantity: nat): TicketRow
    requires quantity <= t.remaining <= t.original
  {
    if line.source.ForOffer? then LeftWaiting(t.(remaining := t.remaining - quantity, fulfilled := t.fulfilled + quantity))
    else if t.original == quantity then t.(status := Folded)
    else LeftWaiting(t.(original := t.original - quantity, remaining := t.remaining - quantity))
  }

  /** The wait that is corrected is the store's, lacks as much, is the wait of the goods when they came from
  one, and has no offer that waits for an answer or for a run. */
  lemma CorrectionGoesTo(tickets: seq<TicketRow>, offers: seq<OfferRow>, lines: seq<LineRow>, line: LineRow, quantity: nat, gone: bool, a: nat)
    requires TicketsSound(tickets)
    ensures PlanCorrection(tickets, offers, lines, line, quantity, gone).AlreadyGone? <==> gone
    ensures PlanCorrection(tickets, offers, lines, line, quantity, gone) == Corrected(a)
      <==> && !gone && a < |tickets| && tickets[a].status == Waiting && tickets[a].store == line.store && tickets[a].product == line.product
           && quantity <= tickets[a].remaining && (line.source.ForOffer? ==> a == line.source.ticket)
           && (forall o :: o in offers && o.ticket == a ==> o.status != Offered && (o.status == Accepted ==> IsAllocated(lines, o.id)))
  {
    hide ActiveWait, TicketsSound, IsAllocated;
    if a < |tickets| && WaitsFor(tickets[a], line.store, line.product) { OneWait(tickets, line.store, line.product, a); }
  }

  /** Goods of the wait itself count as received again; other goods leave the wait, and with them the wait
  when it was for nothing else. */
  lemma CorrectedWait(w: TicketRow, line: LineRow, quantity: nat)
    requires TicketSound(w) && w.status == Waiting && quantity <= w.remaining
    ensures var v := CorrectedRow(w, line, quantity);
      && v.store == w.store && v.product == w.product && v.queuedAt == w.queuedAt
      && (line.source.ForOffer? ==> v.original == w.original && v.remaining == w.remaining - quantity && v.fulfilled == w.fulfilled + quantity)
      && (line.source.ForRequest? ==> v.fulfilled == w.fulfilled)
      && (line.source.ForRequest? && quantity < w.original ==> v.original == w.original - quantity && v.remaining == w.remaining - quantity)
      && (v.status == Folded <==> line.source.ForRequest? && quantity == w.original)
      && (v.status == Fulfilled <==> quantity == w.remaining && v.status != Folded) && v.status != Cancelled
  {
  }

  /** A correction takes exactly the quantity from what the store waits for. */
  lemma CorrectionIsSound(tickets: seq<TicketRow>, line: LineRow, quantity: nat, a: nat)
    requires TicketsSound(tickets) && a < |tickets| && WaitsFor(tickets[a], line.store, line.product) && quantity <= tickets[a].remaining
    ensures tickets[a].remaining <= tickets[a].original
    ensures var after := tickets[a := CorrectedRow(tickets[a], line, quantity)];
      && TicketsSound(after)
      && forall s, p :: OpenDemand(after, s, p) == OpenDemand(tickets, s, p) - if s == line.store && p == line.product then quantity else 0
  {
    hide Total;
    assert tickets[a] in tickets;
    var row := CorrectedRow(tickets[a], line, quantity);
    var after := tickets[a := row];
    forall x | x in after ensures TicketSound(x) {
      if x != row { assert x in tickets; }
    }
    forall s, p ensures OpenDemand(after, s, p) == OpenDemand(tickets, s, p) - if s == line.store && p == line.product then quantity else 0 {
      TotalSet(tickets, a, row, OpenOf(s, p));
    }
  }

  lemma CorrectionKeepsInv(db: Db, line: LineRow, quantity: nat, a: nat)
    requires Inv(db) && a < |db.tickets| && WaitsFor(db.tickets[a], line.store, line.product) && quantity <= db.tickets[a].remaining
    requires forall o :: o in db.offers && o.ticket == a ==> !Live(o, db.lines)
    ensures db.tickets[a].remaining <= db.tickets[a].original
    ensures var after := db.(tickets := db.tickets[a := CorrectedRow(db.tickets[a], line, quantity)]);
      Inv(after) && (Standing(db) ==> Standing(after))
  {
    CorrectionIsSound(db.tickets, line, quantity, a);
    var after := db.tickets[a := CorrectedRow(db.tickets[a], line, quantity)];
    hide Stocked, TicketsSound, OffersSound, ReservationsSound, ShipmentsSound, SnapshotsSound, ClaimsSound, AcceptedStand, Live;
    TicketsReplaced(db.offers, db.tickets, after, db.snapshots);
    TicketsKeepClaims(db.offers, db.lines, db.tickets, after, db.clock);
    if Standing(db) { TicketsKeepStanding(db.offers, db.lines, db.tickets, after); }
  }

  /** Right after a declaration its correction is refused for good exactly when the goods came from a
  cancelled wait; otherwise it waits for the offers of the wait, and takes the declaration back: to the
  ticket unless that merged or had been merged, where only the demand returns to what it was. */
  lemma CorrectionTakesBack(tickets: seq<TicketRow>, offers: seq<OfferRow>, lines: seq<LineRow>, line: LineRow, shortage: nat, now: Instant)
    requires TicketsSound(tickets) && HasSource(line, tickets) && (line.source.ForOffer? ==> IsPlaced(line, tickets))
    requires !PlanShortage(tickets, line, shortage).Uncovered? && shortage > 0
    ensures var plan, after := PlanShortage(tickets, line, shortage), Declared(tickets, line, shortage, now);
      var c := PlanCorrection(after, offers, lines, line, shortage, false);
      && (c == NotQueued <==> line.source.ForOffer? && tickets[line.source.ticket].status == Cancelled)
      && (c.Corrected? ==> c.ticket < |after| && shortage <= after[c.ticket].remaining <= after[c.ticket].original)
      && (c.Corrected? && (plan.Restore? || plan.Extend?) && !ReopensFolded(tickets, line) ==>
            after[c.ticket := CorrectedRow(after[c.ticket], line, shortage)] == tickets)
      && (c.Corrected? && !ReopensFolded(tickets, line) ==>
            forall s, p :: OpenDemand(after[c.ticket := CorrectedRow(after[c.ticket], line, shortage)], s, p) == OpenDemand(tickets, s, p))
  {
    hide ActiveWait, OpenDemand;
    var plan, after := PlanShortage(tickets, line, shortage), Declared(tickets, line, shortage, now);
    DeclaredIsSound(tickets, line, shortage, now);
    var a := match plan case Restore(s) => s case Merge(s, _) => s case Extend(t) => t case Open => |tickets| case Uncovered => 0;
    OneWait(after, line.store, line.product, a);
    assert after[a] in after;
    assert a < |tickets| ==> tickets[a] in tickets;
    DeclaredDemand(tickets, line, shortage, now);
    CorrectionIsSound(after, line, shortage, a);
  }

  // ---------------------------------------------------------------------------------------------
  // One input
  // ---------------------------------------------------------------------------------------------

  /** Store 7 got product 3 for its first wait, waits for more of it, and accepted an offer for that. */
  const BETWEEN_RUNS := Db(
    map[3 := Balance(1, 1)],
    [OfferRow(50, 5, 0, 7, 3, 0, 1, 1, 0, 1, 0, 10, Accepted), OfferRow(51, 6, 1, 7, 3, 0, 1, 1, 1, 1, 0, 20, Accepted)],
    [TicketRow(7, 3, 1, 0, 1, -100, Fulfilled), TicketRow(7, 3, 1, 1, 0, -50, Waiting)],
    [LineRow(5, 7, 3, ForOffer(0, 50), 1, 1, 0)],
    [Reservation(3, 7, 0, 1, Issued, None)],
    [],
    map[5 := [SnapshotItem(3, 1)], 6 := [SnapshotItem(3, 1)]],
    map[],
    15)

  lemma BetweenRunsIsStocked()
    ensures Stocked(BETWEEN_RUNS.balances, BETWEEN_RUNS.offers, BETWEEN_RUNS.reservations, NOTHING)
  {
    var balances, offers, reservations := BETWEEN_RUNS.balances, BETWEEN_RUNS.offers, BETWEEN_RUNS.reservations;
    forall p ensures Covered(balances, offers, reservations, NOTHING, p) {
      assert offers == [offers[0]] + [offers[1]] && [offers[0]] == [] + [offers[0]] && reservations == [] + [reservations[0]];
      TotalPush([offers[0]], offers[1], HeldOf(p));
      TotalPush([], offers[0], HeldOf(p));
      TotalPush([], reservations[0], ReservedOf(p));
    }
  }

  lemma BetweenRunsHasRows()
    ensures OffersSound(BETWEEN_RUNS.offers, BETWEEN_RUNS.tickets, BETWEEN_RUNS.snapshots) && TicketsSound(BETWEEN_RUNS.tickets)
    ensures ReservationsSound(BETWEEN_RUNS.reservations, BETWEEN_RUNS.lines, BETWEEN_RUNS.shipments)
    ensures ShipmentsSound(BETWEEN_RUNS.reservations, BETWEEN_RUNS.shipments) && SnapshotsSound(BETWEEN_RUNS.snapshots)
  {
    assert SnapshotItem(3, 1) in [SnapshotItem(3, 1)];
    assert BETWEEN_RUNS.reservations[0].line == 0;
  }

  lemma BetweenRunsHasClaims()
    ensures ClaimsSound(BETWEEN_RUNS.offers, BETWEEN_RUNS.lines, BETWEEN_RUNS.tickets, BETWEEN_RUNS.clock)
    ensures Standing(BETWEEN_RUNS) && !IsAllocated(BETWEEN_RUNS.lines, 51)
  {
    assert BETWEEN_RUNS.offers[0] in BETWEEN_RUNS.offers && BETWEEN_RUNS.lines[0] in BETWEEN_RUNS.lines;
  }

  lemma BetweenRunsIsSound()
    ensures Inv(BETWEEN_RUNS) && Standing(BETWEEN_RUNS)
  {
    hide Stocked, OffersSound, TicketsSound, ReservationsSound, ShipmentsSound, SnapshotsSound, ClaimsSound, Standing;
    BetweenRunsIsStocked();
    BetweenRunsHasRows();
    BetweenRunsHasClaims();
  }

  /** One bag of the first wait did not arrive: once that is declared, session 6 cannot be allocated. */
  lemma ShortageStopsARun(input: RunInput)
    ensures var session := Session(6, 0, 0, 20, 0);
      var line := BETWEEN_RUNS.lines[0];
      && Inv(BETWEEN_RUNS) && RunFailure(BETWEEN_RUNS, SessionRow(session, true), session, input) != Some(WaitChanged)
      && PlanShortage(BETWEEN_RUNS.tickets, line, 1) == Merge(0, 1)
      && var after := BETWEEN_RUNS.(tickets := Declared(BETWEEN_RUNS.tickets, line, 1, 16));
      && Inv(after) && RunFailure(after, SessionRow(session, true), session, input) == Some(WaitChanged)
  {
    hide Inv, RunFailure, Declared, IsAllocated, ActiveWait, AcceptedStand;
    BetweenRunsIsSound();
    BetweenRunsHasRows();
    BetweenRunsHasClaims();
    var db, session := BETWEEN_RUNS, Session(6, 0, 0, 20, 0);
    OneWait(db.tickets, 7, 3, 1);
    assert db.lines[0] in db.lines && db.offers[1] in db.offers;
    StandingRunsProceed(db, input);
    MergeStopsRun(db, db.lines[0], 1, 16, db.offers[1], SessionRow(session, true), session, input);
  }
}
