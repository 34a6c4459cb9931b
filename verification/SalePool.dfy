/** The Sale pool ledger: bags, lots, counters, transfers and history, and what each command does.

Commands are described as functions from a state to an outcome.  A refused command leaves the state
alone.  The clock and the external sales figures are inputs. */
module SalePool {
  import opened Common
  import opened Quantities
  import opened Ordering
  import opened SaleLots
  import opened SaleSettlement

  datatype BagStatus = Available | Opened | Emptied

  datatype Bag = Bag(slot: Slot, original: nat, remaining: nat, status: BagStatus, version: nat)

  /** A document to take weight out of a bag; only its approval does. */
  datatype Review = Unreviewed | Approved | Rejected

  datatype Outbound = Outbound(bag: nat, grams: nat, review: Review, version: nat)

  datatype Action =
    | SortSale | SortCharity | SortCancel
    | CharityToSale | CharityExport
    | CancelToSale | CancelFinalize
    | SaleToCharity | SaleToCancel

  datatype Entry = Entry(slot: Slot, action: Action, grams: nat)

  datatype TransferStatus = InTransit | Arrived | Withdrawn

  datatype TransferLine = TransferLine(product: Id, grams: nat)

  datatype Transfer = Transfer(source: Id, destination: Id, lines: seq<TransferLine>, status: TransferStatus, version: nat)

  datatype State = State(
    bags: seq<Bag>, lots: seq<Lot>, keys: seq<CounterKey>, counters: Counters,
    firstCredit: map<Slot, Period>, transfers: seq<Transfer>, history: seq<Entry>, outbounds: seq<Outbound>)

  /** A product's sales in one report; no figure when the report is incomplete. */
  datatype Figures = Figures(byWeight: Option<nat>, byPiece: Option<nat>)

  /** The current month, and the figures of the last report on record for it. */
  datatype Env = Env(period: Period, figures: Slot -> Figures)

  datatype Error = NotFound | VersionConflict | InsufficientStock | ValidationError

  datatype Outcome = Done(state: State) | Refused(error: Error) | ChangedThenFailed(state: State)

  ghost predicate KeysMatch(s: State) {
    Distinct(s.keys) && forall k :: k in s.keys <==> k in s.counters
  }

  // ---------------------------------------------------------------------------------------------
  // Counters
  // ---------------------------------------------------------------------------------------------

  function SlotKeys(s: State, slot: Slot): seq<CounterKey> {
    KeysOf(s.keys, slot)
  }

  lemma SlotKeysKnown(s: State, slot: Slot)
    requires KeysMatch(s)
    ensures Known(s.counters, SlotKeys(s, slot))
    ensures forall k :: k in SlotKeys(s, slot) <==> k in s.keys && k.slot == slot
  {
    var mine := (k: CounterKey) => k.slot == slot;
    FilterDistinct(s.keys, mine);
    SortKeepsDistinct(Filter(s.keys, mine), KeyOrder);
    forall k ensures k in SlotKeys(s, slot) <==> k in s.keys && k.slot == slot {
      FilterCounts(s.keys, mine, k);
    }
  }

  function Settle(s: State, slot: Slot): (r: State)
    requires KeysMatch(s)
    ensures KeysMatch(r)
    ensures r == s.(lots := r.lots, counters := r.counters)
  {
    SlotKeysKnown(s, slot);
    var ks := SlotKeys(s, slot);
    s.(lots := SettledLots(s.lots, slot, s.counters, ks), counters := SettledCounters(s.lots, slot, s.counters, ks))
  }

  /** A counter that starts at the figure on record; without a figure the next report sets it. */
  function FreshCounter(figure: Option<nat>): Counter {
    match figure
    case Some(value) => Counter(value, value, 0, false)
    case None => Counter(0, 0, 0, true)
  }

  function PutCounter(s: State, key: CounterKey, counter: Counter): (r: State)
    requires KeysMatch(s)
    ensures KeysMatch(r)
  {
    s.(keys := if key in s.counters then s.keys else s.keys + [key], counters := s.counters[key := counter])
  }

  function AddCounter(s: State, key: CounterKey, figure: Option<nat>): (r: State)
    requires KeysMatch(s)
    ensures KeysMatch(r)
  {
    if key in s.counters then s else PutCounter(s, key, FreshCounter(figure))
  }

  /** Sales made before the first credit are not charged to the new stock. */
  function InitializeBaseline(s: State, slot: Slot, env: Env): (r: State)
    requires KeysMatch(s)
    ensures KeysMatch(r)
  {
    var figures := env.figures(slot);
    AddCounter(AddCounter(s, CounterKey(slot, env.period, ByWeight), figures.byWeight),
               CounterKey(slot, env.period, ByPiece), figures.byPiece)
  }

  predicate HasSale(lots: seq<Lot>, slot: Slot) {
    exists lot :: lot in lots && lot.slot == slot && lot.sale > 0
  }

  /** Before Sale weight is credited to a slot that has none. */
  function PrepareCredit(s: State, slot: Slot, env: Env): (r: State)
    requires KeysMatch(s)
    ensures KeysMatch(r)
  {
    if HasSale(s.lots, slot) then s else InitializeBaseline(s, slot, env)
  }

  function MarkCredit(s: State, slot: Slot, period: Period): State {
    if slot in s.firstCredit then s else s.(firstCredit := s.firstCredit[slot := period])
  }

  // ---------------------------------------------------------------------------------------------
  // Sorting
  // ---------------------------------------------------------------------------------------------

  function SortAction(field: Field): Action {
    match field
    case Sale => SortSale
    case Charity => SortCharity
    case Cancel => SortCancel
  }

  /** The lot a bag is sorted into: its own, or a new one. */
  function BagLot(lots: seq<Lot>, bag: nat): (i: nat)
    ensures i <= |lots|
    ensures i < |lots| ==> lots[i].source == FromBag(bag)
  {
    if |lots| == 0 then 0
    else
      var i := BagLot(lots[..|lots| - 1], bag);
      if i < |lots| - 1 then i
      else if lots[|lots| - 1].source == FromBag(bag) then |lots| - 1 else |lots|
  }

  function EmptyLot(slot: Slot, source: Source): Lot {
    Lot(slot, source, 0, 0, 0, 0, 0)
  }

  function AddToLot(lots: seq<Lot>, slot: Slot, bag: nat, field: Field, g: nat): seq<Lot> {
    var i := BagLot(lots, bag);
    if i < |lots| then lots[i := Give(lots[i].(slot := slot), Into(field), g)]
    else lots + [Give(EmptyLot(slot, FromBag(bag)), Into(field), g)]
  }

  function OpenBag(bag: Bag, g: nat): Bag
    requires g <= bag.remaining
  {
    bag.(remaining := bag.remaining - g, status := if g == bag.remaining then Emptied else Opened, version := bag.version + 1)
  }

  function SortBag(s: State, bag: nat, expectedVersion: nat, field: Field, g: nat, env: Env): Outcome
    requires KeysMatch(s)
  {
    if bag >= |s.bags| then Refused(NotFound)
    else
      var b := s.bags[bag];
      if b.version != expectedVersion || b.status == Emptied then Refused(VersionConflict)
      else if g == 0 || g > b.remaining then Refused(InsufficientStock)
      else
        var prepared := if field == Sale then PrepareCredit(s, b.slot, env) else s;
        var sorted := prepared.(bags := s.bags[bag := OpenBag(b, g)], lots := AddToLot(s.lots, b.slot, bag, field, g));
        var credited := if field == Sale then Settle(MarkCredit(sorted, b.slot, env.period), b.slot) else sorted;
        Done(credited.(history := credited.history + [Entry(b.slot, SortAction(field), g)]))
  }

  function ReceiveBag(s: State, slot: Slot, g: nat): State {
    s.(bags := s.bags + [Bag(slot, g, g, Available, 0)])
  }

  function RequestOutbound(s: State, bag: nat, expectedVersion: nat, g: nat): Outcome {
    if bag >= |s.bags| then Refused(NotFound)
    else
      var b := s.bags[bag];
      if b.version != expectedVersion || b.status == Emptied then Refused(VersionConflict)
      else if g > b.remaining then Refused(InsufficientStock)
      else Done(s.(outbounds := s.outbounds + [Outbound(bag, g, Unreviewed, 0)]))
  }

  /** A document is reviewed once.  Approving it takes its weight out of the bag; rejecting it needs a
  note. */
  function ReviewOutbound(s: State, i: nat, expectedVersion: nat, approve: bool, noted: bool): Outcome {
    if i >= |s.outbounds| then Refused(NotFound)
    else
      var o := s.outbounds[i];
      if o.version != expectedVersion || o.review != Unreviewed then Refused(VersionConflict)
      else if !approve then
        if !noted then Refused(ValidationError)
        else Done(s.(outbounds := s.outbounds[i := o.(review := Rejected, version := o.version + 1)]))
      else if o.bag >= |s.bags| then Refused(NotFound)
      else
        var b := s.bags[o.bag];
        if b.status == Emptied then Refused(VersionConflict)
        else if o.grams > b.remaining then Refused(InsufficientStock)
        else
          Done(s.(bags := s.bags[o.bag := OpenBag(b, o.grams)],
                  outbounds := s.outbounds[i := o.(review := Approved, version := o.version + 1)]))
  }

  // ---------------------------------------------------------------------------------------------
  // Moving between buckets
  // ---------------------------------------------------------------------------------------------

  datatype BucketMove = BucketMove(from: Field, to: Dest, action: Action, all: bool)

  const MOVE_CHARITY_TO_SALE := BucketMove(Charity, Into(Sale), CharityToSale, false)
  const EXPORT_CHARITY := BucketMove(Charity, Gone, CharityExport, false)
  const MOVE_CANCEL_TO_SALE := BucketMove(Cancel, Into(Sale), CancelToSale, false)
  const FINALIZE_CANCEL := BucketMove(Cancel, Gone, CancelFinalize, true)
  const MOVE_SALE_TO_CHARITY := BucketMove(Sale, Into(Charity), SaleToCharity, false)
  const MOVE_SALE_TO_CANCEL := BucketMove(Sale, Into(Cancel), SaleToCancel, false)

  const BUCKET_MOVES: set<BucketMove> := {
    MOVE_CHARITY_TO_SALE, EXPORT_CHARITY, MOVE_CANCEL_TO_SALE, FINALIZE_CANCEL, MOVE_SALE_TO_CHARITY, MOVE_SALE_TO_CANCEL
  }

  /** One history entry per lot that gave something. */
  function Entries(slot: Slot, action: Action, t: seq<nat>): seq<Entry> {
    if |t| == 0 then []
    else
      Entries(slot, action, t[..|t| - 1]) + if t[|t| - 1] == 0 then [] else [Entry(slot, action, t[|t| - 1])]
  }

  function MoveBucket(s: State, slot: Slot, move: BucketMove, g: nat, env: Env): Outcome
    requires KeysMatch(s)
  {
    if move.all && g != Pool(s.lots, slot, move.from) then Refused(ValidationError)
    else if g == 0 || g > Pool(s.lots, slot, move.from) then Refused(InsufficientStock)
    else
      var toSale := move.to == Into(Sale);
      var prepared := if toSale then PrepareCredit(s, slot, env) else s;
      var moved := prepared.(
        lots := Drain(s.lots, slot, move.from, move.to, g),
        history := s.history + Entries(slot, move.action, Taken(s.lots, slot, move.from, g)));
      Done(if toSale then Settle(MarkCredit(moved, slot, env.period), slot) else moved)
  }

  /** Moving or exporting the charity weight of a single lot that the caller saw in its present version.
  A lot that came from a transfer has no bag, and the command fails after it has already changed the
  state. */
  function MoveLotCharity(s: State, lot: nat, seen: bool, g: nat, toSale: bool, env: Env): Outcome
    requires KeysMatch(s)
  {
    if lot >= |s.lots| then Refused(NotFound)
    else
      var l := s.lots[lot];
      if !seen then Refused(VersionConflict)
      else if g == 0 || g > l.charity then Refused(InsufficientStock)
      else if !toSale && g != l.charity then Refused(ValidationError)
      else
        var prepared := if toSale then PrepareCredit(s, l.slot, env) else s;
        var moved := prepared.(lots := s.lots[lot := Move(l, Charity, if toSale then Into(Sale) else Gone, g)]);
        var credited := if toSale then Settle(MarkCredit(moved, l.slot, env.period), l.slot) else moved;
        var done := credited.(history := credited.history + [Entry(l.slot, if toSale then CharityToSale else CharityExport, g)]);
        if l.source.FromBag? then Done(done) else ChangedThenFailed(done)
  }

  // ---------------------------------------------------------------------------------------------
  // Sales reports
  // ---------------------------------------------------------------------------------------------

  function ObserveFigure(s: State, key: CounterKey, figure: Option<nat>): (r: State)
    requires KeysMatch(s)
    ensures KeysMatch(r)
  {
    match figure
    case None => s
    case Some(observed) =>
      var counter :=
        if key in s.counters then
          var previous := s.counters[key];
          Counter(if previous.pending then observed else previous.baseline, observed, previous.applied, false)
        else Counter(0, observed, 0, false);
      PutCounter(s, key, counter)
  }

  function ObserveProduct(s: State, slot: Slot, period: Period, figures: Figures): (r: State)
    requires KeysMatch(s)
    ensures KeysMatch(r)
  {
    var seen := ObserveFigure(ObserveFigure(s, CounterKey(slot, period, ByWeight), figures.byWeight),
                              CounterKey(slot, period, ByPiece), figures.byPiece);
    Settle(seen, slot)
  }

  /** A product is settled against a report once it was credited, in this month or an earlier one. */
  predicate Reported(s: State, lot: Lot, store: Id, period: Period) {
    && lot.slot.store == store && lot.credited > 0
    && (lot.slot in s.firstCredit ==> s.firstCredit[lot.slot] <= period)
  }

  function ReportedProducts(s: State, lots: seq<Lot>, store: Id, period: Period): seq<Id> {
    if |lots| == 0 then []
    else
      var before := ReportedProducts(s, lots[..|lots| - 1], store, period);
      var lot := lots[|lots| - 1];
      if Reported(s, lot, store, period) && lot.slot.product !in before then before + [lot.slot.product] else before
  }

  /** Products the catalogue does not know are passed over. */
  function ObserveProducts(s: State, store: Id, period: Period, figures: map<Id, Figures>, products: seq<Id>): (r: State)
    requires KeysMatch(s)
    ensures KeysMatch(r)
  {
    if |products| == 0 then s
    else
      var product := products[|products| - 1];
      var before := ObserveProducts(s, store, period, figures, products[..|products| - 1]);
      if product in figures then ObserveProduct(before, Slot(store, product), period, figures[product]) else before
  }

  function Observe(s: State, store: Id, period: Period, figures: map<Id, Figures>): (r: State)
    requires KeysMatch(s)
    ensures KeysMatch(r)
  {
    ObserveProducts(s, store, period, figures, ReportedProducts(s, s.lots, store, period))
  }

  // ---------------------------------------------------------------------------------------------
  // Transfers between stores
  // ---------------------------------------------------------------------------------------------

  datatype RequestLine = RequestLine(product: Id, active: bool, bags: seq<nat>)

  predicate DistinctProducts(lines: seq<RequestLine>) {
    forall i, j :: 0 <= i < j < |lines| ==> lines[i].product != lines[j].product
  }

  /** The first complaint about a request line, checked against the stock before any line is taken. */
  function LineError(lots: seq<Lot>, store: Id, line: RequestLine): Option<Error> {
    if !line.active then Some(ValidationError)
    else if line.bags == [] || exists b :: b in line.bags && b == 0 then Some(ValidationError)
    else if Sum(line.bags) > Pool(lots, Slot(store, line.product), Sale) then Some(InsufficientStock)
    else None
  }

  function FirstError(lots: seq<Lot>, store: Id, lines: seq<RequestLine>): Option<Error> {
    if |lines| == 0 then None
    else
      var before := FirstError(lots, store, lines[..|lines| - 1]);
      if before.Some? then before else LineError(lots, store, lines[|lines| - 1])
  }

  function DrainLines(lots: seq<Lot>, store: Id, lines: seq<RequestLine>): (r: seq<Lot>)
    ensures |r| == |lots|
  {
    if |lines| == 0 then lots
    else
      var line := lines[|lines| - 1];
      Drain(DrainLines(lots, store, lines[..|lines| - 1]), Slot(store, line.product), Sale, Transferred, Sum(line.bags))
  }

  function TransferLines(lines: seq<RequestLine>): (r: seq<TransferLine>)
    ensures |r| == |lines|
  {
    seq(|lines|, i requires 0 <= i < |lines| => TransferLine(lines[i].product, Sum(lines[i].bags)))
  }

  function Dispatch(s: State, source: Id, destination: Id, destinationOpen: bool, lines: seq<RequestLine>): Outcome {
    if !destinationOpen || destination == source then Refused(ValidationError)
    else
      var error := FirstError(s.lots, source, lines);
      if error.Some? then Refused(error.value)
      else if lines == [] || !DistinctProducts(lines) then Refused(ValidationError)
      else
        Done(s.(lots := DrainLines(s.lots, source, lines),
                transfers := s.transfers + [Transfer(source, destination, TransferLines(lines), InTransit, 0)]))
  }

  function ArrivedLot(slot: Slot, transfer: nat, g: nat): Lot {
    Lot(slot, FromTransfer(transfer), g, 0, 0, g, 0)
  }

  /** One line of a transfer becomes a lot of the receiving store. */
  function ReceiveLine(s: State, slot: Slot, transfer: nat, g: nat, env: Env): (r: State)
    requires KeysMatch(s)
    ensures KeysMatch(r)
  {
    var prepared := PrepareCredit(s, slot, env);
    Settle(MarkCredit(prepared.(lots := s.lots + [ArrivedLot(slot, transfer, g)]), slot, env.period), slot)
  }

  /** One line of a withdrawn transfer becomes a lot of the store it left. */
  function ReturnLine(s: State, slot: Slot, transfer: nat, g: nat): (r: State)
    requires KeysMatch(s)
    ensures KeysMatch(r)
  {
    Settle(s.(lots := s.lots + [ArrivedLot(slot, transfer, g)]), slot)
  }

  function ReceiveLines(s: State, store: Id, transfer: nat, lines: seq<TransferLine>, env: Env): (r: State)
    requires KeysMatch(s)
    ensures KeysMatch(r)
  {
    if |lines| == 0 then s
    else
      var line := lines[|lines| - 1];
      ReceiveLine(ReceiveLines(s, store, transfer, lines[..|lines| - 1], env), Slot(store, line.product), transfer, line.grams, env)
  }

  function ReturnLines(s: State, store: Id, transfer: nat, lines: seq<TransferLine>): (r: State)
    requires KeysMatch(s)
    ensures KeysMatch(r)
  {
    if |lines| == 0 then s
    else
      var line := lines[|lines| - 1];
      ReturnLine(ReturnLines(s, store, transfer, lines[..|lines| - 1]), Slot(store, line.product), transfer, line.grams)
  }

  function Receive(s: State, transfer: nat, expectedVersion: nat, env: Env): Outcome
    requires KeysMatch(s)
  {
    if transfer >= |s.transfers| then Refused(NotFound)
    else
      var t := s.transfers[transfer];
      if t.status != InTransit || t.version != expectedVersion then Refused(VersionConflict)
      else
        var received := ReceiveLines(s, t.destination, transfer, t.lines, env);
        Done(received.(transfers := s.transfers[transfer := t.(status := Arrived, version := 1)]))
  }

  function Withdraw(s: State, transfer: nat, expectedVersion: nat): Outcome
    requires KeysMatch(s)
  {
    if transfer >= |s.transfers| then Refused(NotFound)
    else
      var t := s.transfers[transfer];
      if t.status != InTransit || t.version != expectedVersion then Refused(VersionConflict)
      else
        var returned := ReturnLines(s, t.source, transfer, t.lines);
        Done(returned.(transfers := s.transfers[transfer := t.(status := Withdrawn, version := t.version + 1)]))
  }

  // ---------------------------------------------------------------------------------------------
  // Runs
  // ---------------------------------------------------------------------------------------------

  datatype Command =
    | DoReceiveBag(slot: Slot, weight: nat)
    | DoSort(bag: nat, expectedVersion: nat, field: Field, weight: nat, env: Env)
    | DoRequestOutbound(bag: nat, expectedVersion: nat, weight: nat)
    | DoReviewOutbound(document: nat, expectedVersion: nat, approve: bool, noted: bool)
    | DoMove(slot: Slot, move: BucketMove, weight: nat, env: Env)
    | DoMoveLot(lot: nat, seen: bool, weight: nat, toSale: bool, env: Env)
    | DoObserve(store: Id, period: Period, figures: map<Id, Figures>)
    | DoDispatch(source: Id, destination: Id, destinationOpen: bool, lines: seq<RequestLine>)
    | DoReceive(transfer: nat, expectedVersion: nat, env: Env)
    | DoWithdraw(transfer: nat, expectedVersion: nat)

  ghost predicate Wellformed(c: Command) {
    c.DoMove? ==> c.move in BUCKET_MOVES
  }

  function Execute(s: State, c: Command): Outcome
    requires KeysMatch(s)
  {
    match c
    case DoReceiveBag(slot, g) => Done(ReceiveBag(s, slot, g))
    case DoSort(bag, version, field, g, env) => SortBag(s, bag, version, field, g, env)
    case DoRequestOutbound(bag, version, g) => RequestOutbound(s, bag, version, g)
    case DoReviewOutbound(i, version, approve, noted) => ReviewOutbound(s, i, version, approve, noted)
    case DoMove(slot, move, g, env) => MoveBucket(s, slot, move, g, env)
    case DoMoveLot(lot, seen, g, toSale, env) => MoveLotCharity(s, lot, seen, g, toSale, env)
    case DoObserve(store, period, figures) => Done(Observe(s, store, period, figures))
    case DoDispatch(source, destination, open, lines) => Dispatch(s, source, destination, open, lines)
    case DoReceive(transfer, version, env) => Receive(s, transfer, version, env)
    case DoWithdraw(transfer, version) => Withdraw(s, transfer, version)
  }

  function After(s: State, c: Command): (r: State)
    requires KeysMatch(s)
  {
    match Execute(s, c)
    case Done(state) => state
    case ChangedThenFailed(state) => state
    case Refused(_) => s
  }

  const EMPTY := State([], [], [], map[], map[], [], [], [])
}
