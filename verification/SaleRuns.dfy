/** Every command keeps the books of the Sale pool ledger, hence so does every run. */
module SaleRuns {
  import opened Common
  import opened Quantities
  import opened SaleLots
  import opened SaleSettlement
  import opened SalePool
  import opened SaleInvariants

  // ---------------------------------------------------------------------------------------------
  // Replacing or adding one row
  // ---------------------------------------------------------------------------------------------

  lemma LotReplaced(lots: seq<Lot>, i: nat, lot: Lot)
    requires i < |lots| && lot.slot == lots[i].slot
    ensures var t := lots[i := lot];
      && Sum(Weights(t)) + lots[i].sale + lots[i].charity + lots[i].cancel == Sum(Weights(lots)) + lot.sale + lot.charity + lot.cancel
      && (forall x :: RoomOf(t, x) == RoomOf(lots, x) + if x == lot.slot then Room(lot) - Room(lots[i]) else 0)
      && (forall x :: Pool(t, x, Sale) == Pool(lots, x, Sale) + if x == lot.slot then lot.sale - lots[i].sale else 0)
  {
    hide Sum;
    var t := lots[i := lot];
    assert Weights(t) == Weights(lots)[i := lot.sale + lot.charity + lot.cancel];
    SumSet(Weights(lots), i, lot.sale + lot.charity + lot.cancel);
    forall x ensures RoomOf(t, x) == RoomOf(lots, x) + if x == lot.slot then Room(lot) - Room(lots[i]) else 0 {
      var v := if x == lot.slot then Room(lot) else 0;
      assert Rooms(t, x) == Rooms(lots, x)[i := v];
      SumSet(Rooms(lots, x), i, v);
    }
    forall x ensures Pool(t, x, Sale) == Pool(lots, x, Sale) + if x == lot.slot then lot.sale - lots[i].sale else 0 {
      var v := if x == lot.slot then lot.sale else 0;
      assert Amounts(t, x, Sale) == Amounts(lots, x, Sale)[i := v];
      SumSet(Amounts(lots, x, Sale), i, v);
    }
  }

  lemma LotAdded(lots: seq<Lot>, lot: Lot)
    ensures var t := lots + [lot];
      && Sum(Weights(t)) == Sum(Weights(lots)) + lot.sale + lot.charity + lot.cancel
      && (forall x :: RoomOf(t, x) == RoomOf(lots, x) + if x == lot.slot then Room(lot) else 0)
      && (forall x :: Pool(t, x, Sale) == Pool(lots, x, Sale) + if x == lot.slot then lot.sale else 0)
  {
    hide Sum;
    var t := lots + [lot];
    assert Weights(t) == Weights(lots) + [lot.sale + lot.charity + lot.cancel];
    SumAppend(Weights(lots), [lot.sale + lot.charity + lot.cancel]);
    SumOne(lot.sale + lot.charity + lot.cancel);
    forall x ensures RoomOf(t, x) == RoomOf(lots, x) + if x == lot.slot then Room(lot) else 0 {
      var v := if x == lot.slot then Room(lot) else 0;
      assert Rooms(t, x) == Rooms(lots, x) + [v];
      SumAppend(Rooms(lots, x), [v]);
      SumOne(v);
    }
    forall x ensures Pool(t, x, Sale) == Pool(lots, x, Sale) + if x == lot.slot then lot.sale else 0 {
      var v := if x == lot.slot then lot.sale else 0;
      assert Amounts(t, x, Sale) == Amounts(lots, x, Sale) + [v];
      SumAppend(Amounts(lots, x, Sale), [v]);
      SumOne(v);
    }
  }

  lemma SumOne(v: nat)
    ensures Sum([v]) == v
  {
    assert [v][..0] == [];
  }

  lemma SoundReplaced(lots: seq<Lot>, i: nat, lot: Lot)
    requires Sound(lots) && i < |lots| && lot.out + lot.sale <= lot.credited
    ensures Sound(lots[i := lot])
  {
  }

  lemma BagReplaced(bags: seq<Bag>, i: nat, bag: Bag)
    requires i < |bags|
    ensures InBags(bags[i := bag]) + bags[i].remaining == InBags(bags) + bag.remaining
    ensures Received(bags[i := bag]) + bags[i].original == Received(bags) + bag.original
  {
    TotalSet(bags, i, bag, (b: Bag) => b.remaining);
    TotalSet(bags, i, bag, (b: Bag) => b.original);
  }

  // ---------------------------------------------------------------------------------------------
  // Bags
  // ---------------------------------------------------------------------------------------------

  lemma ReceiveBagKeepsInv(s: State, slot: Slot, g: nat)
    requires Inv(s)
    ensures Inv(ReceiveBag(s, slot, g))
  {
    var bag := Bag(slot, g, g, Available, 0);
    TotalPush(s.bags, bag, (b: Bag) => b.remaining);
    TotalPush(s.bags, bag, (b: Bag) => b.original);
    ChangeKeepsBooks(s, ReceiveBag(s, slot, g), slot, 0, 0);
  }

  lemma RequestOutboundKeepsInv(s: State, bag: nat, version: nat, g: nat)
    requires Inv(s) && RequestOutbound(s, bag, version, g).Done?
    ensures Inv(RequestOutbound(s, bag, version, g).state)
  {
    TotalPush(s.outbounds, Outbound(bag, g, Unreviewed, 0), (o: Outbound) => if o.review == Approved then o.grams else 0);
    ChangeKeepsBooks(s, RequestOutbound(s, bag, version, g).state, s.bags[bag].slot, 0, 0);
  }

  lemma ReviewOutboundKeepsInv(s: State, i: nat, version: nat, approve: bool, noted: bool)
    requires Inv(s) && ReviewOutbound(s, i, version, approve, noted).Done?
    ensures Inv(ReviewOutbound(s, i, version, approve, noted).state)
  {
    var o, t := s.outbounds[i], ReviewOutbound(s, i, version, approve, noted).state;
    TotalSet(s.outbounds, i, t.outbounds[i], (x: Outbound) => if x.review == Approved then x.grams else 0);
    if approve {
      BagReplaced(s.bags, o.bag, OpenBag(s.bags[o.bag], o.grams));
    }
    ChangeKeepsBooks(s, t, Slot(0, 0), 0, 0);
  }

  /** Weight sorted from a bag: the bag's lot gains it, and only a Sale credit raises a Sale pool. */
  lemma SortedLots(s: State, bag: nat, field: Field, g: nat)
    requires Sound(s.lots) && LotsMatchBags(s) && bag < |s.bags|
    ensures var slot := s.bags[bag].slot; var t := AddToLot(s.lots, slot, bag, field, g);
      && Sound(t)
      && (forall lot :: lot in t ==> lot in s.lots || (lot.source == FromBag(bag) && lot.slot == slot))
      && Sum(Weights(t)) == Sum(Weights(s.lots)) + g
      && (forall x :: RoomOf(t, x) == RoomOf(s.lots, x))
      && (forall x :: Pool(t, x, Sale) == Pool(s.lots, x, Sale) + if x == slot && field == Sale then g else 0)
  {
    hide Sum, RoomOf, Pool;
    var slot := s.bags[bag].slot;
    var i := BagLot(s.lots, bag);
    if i < |s.lots| {
      assert s.lots[i] in s.lots;
      LotReplaced(s.lots, i, Give(s.lots[i].(slot := slot), Into(field), g));
    } else {
      LotAdded(s.lots, Give(EmptyLot(slot, FromBag(bag)), Into(field), g));
    }
  }

  lemma SortBagKeepsInv(s: State, bag: nat, expectedVersion: nat, field: Field, g: nat, env: Env)
    requires Inv(s) && SortBag(s, bag, expectedVersion, field, g, env).Done?
    ensures Inv(SortBag(s, bag, expectedVersion, field, g, env).state)
  {
    hide Settle, Sum, RoomOf, Pool, AddToLot, InitializeBaseline, HasSale, MarkCredit, Sound;
    var slot := s.bags[bag].slot;
    var prepared := if field == Sale then PrepareCredit(s, slot, env) else s;
    PrepareKeepsWhole(s, slot, env, 0);
    PrepareKeepsRest(s, slot, env);
    hide PrepareCredit;
    var bags := s.bags[bag := OpenBag(s.bags[bag], g)];
    var sorted := prepared.(bags := bags, lots := AddToLot(s.lots, slot, bag, field, g));
    BagReplaced(s.bags, bag, OpenBag(s.bags[bag], g));
    SortedLots(s, bag, field, g);
    ChangeKeepsBooks(prepared, sorted, slot, 0, 0);
    var e := Entry(slot, SortAction(field), g);
    if field == Sale {
      MarkKeepsPending(sorted, slot, env.period, 0);
      SettleCompletes(MarkCredit(sorted, slot, env.period), slot, 0);
      MarkKeepsHistory(sorted, slot, env.period);
      HistoryKeepsWhole(Settle(MarkCredit(sorted, slot, env.period), slot), e, 0);
    } else {
      HistoryKeepsWhole(sorted, e, 0);
    }
  }

  lemma SortIsPending(s: State, bag: nat, g: nat, env: Env)
    requires Inv(s) && bag < |s.bags| && g <= s.bags[bag].remaining
    ensures var slot := s.bags[bag].slot;
      Pending(PrepareCredit(s, slot, env).(bags := s.bags[bag := OpenBag(s.bags[bag], g)],
                                           lots := AddToLot(s.lots, slot, bag, Sale, g)), slot, 0)
  {
    hide Sum, RoomOf, Pool, AddToLot, InitializeBaseline, HasSale, Sound;
    var slot := s.bags[bag].slot;
    var prepared := PrepareCredit(s, slot, env);
    PrepareKeepsWhole(s, slot, env, 0);
    PrepareKeepsRest(s, slot, env);
    hide PrepareCredit, Pending;
    BagReplaced(s.bags, bag, OpenBag(s.bags[bag], g));
    SortedLots(s, bag, Sale, g);
    ChangeKeepsBooks(prepared, prepared.(bags := s.bags[bag := OpenBag(s.bags[bag], g)],
                                         lots := AddToLot(s.lots, slot, bag, Sale, g)), slot, 0, 0);
  }

  /** Crediting ends with a settlement, which completes the books. */
  lemma CreditSettles(s: State, slot: Slot, period: Period, early: nat)
    requires Pending(s, slot, early)
    ensures KeysMatch(s) && Whole(Settle(MarkCredit(s, slot, period), slot), early)
  {
    MarkKeepsPending(s, slot, period, early);
    SettleCompletes(MarkCredit(s, slot, period), slot, early);
  }

  lemma MarkKeepsHistory(s: State, slot: Slot, period: Period)
    ensures MarkCredit(s, slot, period) == s.(firstCredit := MarkCredit(s, slot, period).firstCredit)
  {
  }

  // ---------------------------------------------------------------------------------------------
  // Buckets
  // ---------------------------------------------------------------------------------------------

  lemma {:induction false} EntriesTotals(slot: Slot, action: Action, t: seq<nat>, history: seq<Entry>)
    ensures Disposed(history + Entries(slot, action, t))
         == Disposed(history) + if action == CharityExport || action == CancelFinalize then Sum(t) else 0
    ensures forall x ::
      MovedOut(history + Entries(slot, action, t), x)
      == MovedOut(history, x) + if slot == x && LeavesSale(action) then Sum(t) else 0
  {
    if |t| == 0 {
      assert history + [] == history;
    } else {
      var n := |t| - 1;
      EntriesTotals(slot, action, t[..n], history);
      if t[n] == 0 {
        assert Entries(slot, action, t) == Entries(slot, action, t[..n]);
      } else {
        var e := Entry(slot, action, t[n]);
        var before := history + Entries(slot, action, t[..n]);
        EntryTotals(before, e);
        assert history + Entries(slot, action, t) == before + [e];
      }
    }
  }

  lemma DrainKeepsBags(s: State, slot: Slot, from: Field, to: Dest, g: nat)
    requires LotsMatchBags(s)
    ensures LotsMatchBags(s.(lots := Drain(s.lots, slot, from, to, g)))
  {
    hide FirstCome;
    var lots := Drain(s.lots, slot, from, to, g);
    forall lot | lot in lots && lot.source.FromBag?
      ensures lot.source.bag < |s.bags| && s.bags[lot.source.bag].slot == lot.slot
    {
      var i :| 0 <= i < |lots| && lots[i] == lot;
      assert s.lots[i] in s.lots && s.lots[i].slot == lot.slot && s.lots[i].source == lot.source;
    }
  }

  /** What a bucket move does to rooms and Sale pools. */
  lemma MovedPools(lots: seq<Lot>, slot: Slot, from: Field, to: Dest, g: nat)
    requires Sound(lots) && Possible(from, to) && g <= Pool(lots, slot, from)
    ensures var t := Drain(lots, slot, from, to, g);
      && (forall x :: RoomOf(t, x) == RoomOf(lots, x) + if x == slot && MakesRoom(from, to) then g else 0)
      && (forall x :: x != slot ==> Pool(t, x, Sale) == Pool(lots, x, Sale))
      && (to != Into(Sale) ==> Pool(t, slot, Sale) <= Pool(lots, slot, Sale))
      && (from == Sale ==> Pool(t, slot, Sale) + g == Pool(lots, slot, Sale))
  {
    hide Drain, Sum;
    DrainRoom(lots, slot, from, to, g);
    DrainFrom(lots, slot, from, to, g);
    if from != Sale && to != Into(Sale) {
      DrainKeeps(lots, slot, from, to, g, Sale);
    }
    forall x | x != slot
      ensures RoomOf(Drain(lots, slot, from, to, g), x) == RoomOf(lots, x)
      ensures Pool(Drain(lots, slot, from, to, g), x, Sale) == Pool(lots, x, Sale)
    {
      DrainOther(lots, slot, from, to, g, x);
    }
  }

  /** The history action of a bucket move says what it does. */
  lemma MovesAreLabelled(move: BucketMove)
    requires move in BUCKET_MOVES
    ensures Possible(move.from, move.to) && move.to != Transferred
    ensures LeavesSale(move.action) <==> MakesRoom(move.from, move.to)
    ensures (move.action == CharityExport || move.action == CancelFinalize) <==> move.to == Gone
  {
  }

  lemma MoveBucketKeepsInv(s: State, slot: Slot, move: BucketMove, g: nat, env: Env)
    requires Inv(s) && move in BUCKET_MOVES && MoveBucket(s, slot, move, g, env).Done?
    ensures Inv(MoveBucket(s, slot, move, g, env).state)
  {
    hide Settle, Sum, Drain, InitializeBaseline, HasSale, Sound, Entries, Taken;
    MovesAreLabelled(move);
    var toSale := move.to == Into(Sale);
    var prepared := if toSale then PrepareCredit(s, slot, env) else s;
    PrepareKeepsWhole(s, slot, env, 0);
    PrepareKeepsRest(s, slot, env);
    hide PrepareCredit;
    var t := Taken(s.lots, slot, move.from, g);
    var moved := prepared.(lots := Drain(s.lots, slot, move.from, move.to, g),
                           history := s.history + Entries(slot, move.action, t));
    DrainSound(s.lots, slot, move.from, move.to, g);
    DrainKeepsBags(s, slot, move.from, move.to, g);
    DrainFrom(s.lots, slot, move.from, move.to, g);
    DrainWeights(s.lots, slot, move.from, move.to, g);
    MovedPools(s.lots, slot, move.from, move.to, g);
    EntriesTotals(slot, move.action, t, s.history);
    hide Pool, RoomOf, MovedOut, Disposed;
    ChangeKeepsBooks(prepared, moved, slot, 0, 0);
    if toSale {
      MarkKeepsPending(moved, slot, env.period, 0);
      SettleCompletes(MarkCredit(moved, slot, env.period), slot, 0);
    }
  }

  lemma MoveIsPending(s: State, slot: Slot, move: BucketMove, g: nat, env: Env)
    requires Inv(s) && move in BUCKET_MOVES && move.to == Into(Sale) && 0 < g <= Pool(s.lots, slot, move.from)
    ensures Pending(PrepareCredit(s, slot, env).(
              lots := Drain(s.lots, slot, move.from, move.to, g),
              history := s.history + Entries(slot, move.action, Taken(s.lots, slot, move.from, g))), slot, 0)
  {
    hide Sum, Drain, InitializeBaseline, HasSale, Sound, Entries, Taken;
    MovesAreLabelled(move);
    PrepareKeepsWhole(s, slot, env, 0);
    PrepareKeepsRest(s, slot, env);
    hide PrepareCredit, Pending;
    var prepared, t := PrepareCredit(s, slot, env), Taken(s.lots, slot, move.from, g);
    DrainSound(s.lots, slot, move.from, move.to, g);
    DrainKeepsBags(s, slot, move.from, move.to, g);
    DrainFrom(s.lots, slot, move.from, move.to, g);
    DrainWeights(s.lots, slot, move.from, move.to, g);
    MovedPools(s.lots, slot, move.from, move.to, g);
    EntriesTotals(slot, move.action, t, s.history);
    hide Pool, RoomOf, MovedOut, Disposed;
    ChangeKeepsBooks(prepared, prepared.(lots := Drain(s.lots, slot, move.from, move.to, g),
                                         history := s.history + Entries(slot, move.action, t)), slot, 0, 0);
  }

  lemma MovedLot(s: State, lot: nat, g: nat, toSale: bool)
    requires Sound(s.lots) && LotsMatchBags(s) && lot < |s.lots| && g <= s.lots[lot].charity
    ensures var l := s.lots[lot]; var t := s.lots[lot := Move(l, Charity, if toSale then Into(Sale) else Gone, g)];
      && Sound(t) && LotsMatchBags(s.(lots := t))
      && Sum(Weights(t)) + (if toSale then 0 else g) == Sum(Weights(s.lots))
      && (forall x :: RoomOf(t, x) == RoomOf(s.lots, x))
      && (forall x :: Pool(t, x, Sale) == Pool(s.lots, x, Sale) + if x == l.slot && toSale then g else 0)
  {
    hide Sum, RoomOf, Pool;
    var l := s.lots[lot];
    assert l in s.lots;
    var l' := Move(l, Charity, if toSale then Into(Sale) else Gone, g);
    LotReplaced(s.lots, lot, l');
    SoundReplaced(s.lots, lot, l');
  }

  lemma ExportLotKeepsInv(s: State, lot: nat, g: nat)
    requires Inv(s) && lot < |s.lots| && g <= s.lots[lot].charity
    ensures var l := s.lots[lot];
      Inv(s.(lots := s.lots[lot := Move(l, Charity, Gone, g)], history := s.history + [Entry(l.slot, CharityExport, g)]))
  {
    MovedLot(s, lot, g, false);
    hide Sum, Move, Pool, RoomOf, Sound;
    var l := s.lots[lot];
    var e := Entry(l.slot, CharityExport, g);
    EntryTotals(s.history, e);
    hide MovedOut, Disposed;
    ChangeKeepsBooks(s, s.(lots := s.lots[lot := Move(l, Charity, Gone, g)], history := s.history + [e]), l.slot, 0, 0);
  }

  lemma CreditLotIsPending(s: State, lot: nat, g: nat, env: Env)
    requires Inv(s) && lot < |s.lots| && g <= s.lots[lot].charity
    ensures var l := s.lots[lot];
      Pending(PrepareCredit(s, l.slot, env).(lots := s.lots[lot := Move(l, Charity, Into(Sale), g)]), l.slot, 0)
  {
    MovedLot(s, lot, g, true);
    hide Sum, Move, Pool, RoomOf, Sound;
    var l := s.lots[lot];
    PrepareKeepsWhole(s, l.slot, env, 0);
    PrepareKeepsRest(s, l.slot, env);
    hide PrepareCredit, Pending;
    var prepared := PrepareCredit(s, l.slot, env);
    ChangeKeepsBooks(prepared, prepared.(lots := s.lots[lot := Move(l, Charity, Into(Sale), g)]), l.slot, 0, 0);
  }

  lemma CreditLotKeepsInv(s: State, lot: nat, g: nat, env: Env)
    requires Inv(s) && lot < |s.lots| && g <= s.lots[lot].charity
    ensures var l := s.lots[lot];
      var moved := PrepareCredit(s, l.slot, env).(lots := s.lots[lot := Move(l, Charity, Into(Sale), g)]);
      var settled := Settle(MarkCredit(moved, l.slot, env.period), l.slot);
      Inv(settled.(history := settled.history + [Entry(l.slot, CharityToSale, g)]))
  {
    assert KeysMatch(s);
    hide Whole, Pending, Settle, MarkCredit, PrepareCredit, Move, KeysMatch;
    var l := s.lots[lot];
    CreditLotIsPending(s, lot, g, env);
    var moved := PrepareCredit(s, l.slot, env).(lots := s.lots[lot := Move(l, Charity, Into(Sale), g)]);
    CreditSettles(moved, l.slot, env.period, 0);
    HistoryKeepsWhole(Settle(MarkCredit(moved, l.slot, env.period), l.slot), Entry(l.slot, CharityToSale, g), 0);
  }

  lemma MoveLotKeepsInv(s: State, lot: nat, seen: bool, g: nat, toSale: bool, env: Env)
    requires Inv(s) && !MoveLotCharity(s, lot, seen, g, toSale, env).Refused?
    ensures Inv(MoveLotCharity(s, lot, seen, g, toSale, env).state)
  {
    if toSale {
      CreditLotKeepsInv(s, lot, g, env);
    } else {
      ExportLotKeepsInv(s, lot, g);
    }
    hide Inv, Settle, PrepareCredit, Move, MarkCredit;
  }

  // ---------------------------------------------------------------------------------------------
  // Sales reports
  // ---------------------------------------------------------------------------------------------

  lemma ObserveFigureKeepsPending(s: State, key: CounterKey, figure: Option<nat>, early: nat)
    requires Pending(s, key.slot, early)
    ensures Pending(ObserveFigure(s, key, figure), key.slot, early)
  {
    hide PutCounter, Balanced, Accounted;
    if figure.Some? {
      var counter :=
        if key in s.counters then
          var previous := s.counters[key];
          Counter(if previous.pending then figure.value else previous.baseline, figure.value, previous.applied, false)
        else Counter(0, figure.value, 0, false);
      PutKeepsBooks(s, key, counter, early);
    }
  }

  lemma ObserveProductKeepsWhole(s: State, slot: Slot, period: Period, figures: Figures, early: nat)
    requires Whole(s, early)
    ensures Whole(ObserveProduct(s, slot, period, figures), early)
  {
    assert KeysMatch(s);
    hide Books, SettledAt, ObserveFigure, Settle;
    var first := ObserveFigure(s, CounterKey(slot, period, ByWeight), figures.byWeight);
    ObserveFigureKeepsPending(s, CounterKey(slot, period, ByWeight), figures.byWeight, early);
    ObserveFigureKeepsPending(first, CounterKey(slot, period, ByPiece), figures.byPiece, early);
    SettleCompletes(ObserveFigure(first, CounterKey(slot, period, ByPiece), figures.byPiece), slot, early);
  }

  lemma {:induction false} ObserveProductsKeepWhole(
      s: State, store: Id, period: Period, figures: map<Id, Figures>, products: seq<Id>, early: nat)
    requires Whole(s, early)
    ensures Whole(ObserveProducts(s, store, period, figures, products), early)
  {
    assert KeysMatch(s);
    hide Whole, ObserveProduct;
    if |products| > 0 {
      var n := |products| - 1;
      ObserveProductsKeepWhole(s, store, period, figures, products[..n], early);
      if products[n] in figures {
        ObserveProductKeepsWhole(ObserveProducts(s, store, period, figures, products[..n]),
                                 Slot(store, products[n]), period, figures[products[n]], early);
      }
    }
  }

  // ---------------------------------------------------------------------------------------------
  // Transfers
  // ---------------------------------------------------------------------------------------------

  lemma {:induction false} NoError(lots: seq<Lot>, store: Id, lines: seq<RequestLine>)
    requires FirstError(lots, store, lines).None?
    ensures forall i :: 0 <= i < |lines| ==> Sum(lines[i].bags) <= Pool(lots, Slot(store, lines[i].product), Sale)
  {
    if |lines| > 0 {
      NoError(lots, store, lines[..|lines| - 1]);
      assert forall i :: 0 <= i < |lines| - 1 ==> lines[i] == lines[..|lines| - 1][i];
    }
  }

  function RequestedGrams(lines: seq<RequestLine>): nat {
    Total(lines, (l: RequestLine) => Sum(l.bags))
  }

  /** `t` is `lots` after `g` grams of `slot` left by transfer. */
  ghost predicate LineLeft(lots: seq<Lot>, slot: Slot, g: nat, t: seq<Lot>) {
    && Sum(Weights(t)) + g == Sum(Weights(lots))
    && Sum(Outs(t)) == Sum(Outs(lots)) + g
    && (forall x :: RoomOf(t, x) == RoomOf(lots, x))
    && (forall x :: x != slot ==> Pool(t, x, Sale) == Pool(lots, x, Sale))
    && Pool(t, slot, Sale) + g == Pool(lots, slot, Sale)
  }

  lemma LineLeaves(s: State, slot: Slot, g: nat)
    requires Sound(s.lots) && LotsMatchBags(s) && g <= Pool(s.lots, slot, Sale)
    ensures var t := Drain(s.lots, slot, Sale, Transferred, g);
      Sound(t) && LotsMatchBags(s.(lots := t)) && LineLeft(s.lots, slot, g, t)
  {
    DrainSound(s.lots, slot, Sale, Transferred, g);
    DrainKeepsBags(s, slot, Sale, Transferred, g);
    DrainWeights(s.lots, slot, Sale, Transferred, g);
    MovedPools(s.lots, slot, Sale, Transferred, g);
  }

  /** Every line's weight left its product's lots, and nothing else happened to them. */
  ghost predicate LinesLeft(lots: seq<Lot>, store: Id, lines: seq<RequestLine>, t: seq<Lot>) {
    && Sum(Weights(t)) + RequestedGrams(lines) == Sum(Weights(lots))
    && Sum(Outs(t)) == Sum(Outs(lots)) + RequestedGrams(lines)
    && (forall x :: RoomOf(t, x) == RoomOf(lots, x))
    && (forall x :: Pool(t, x, Sale) + Asked(lines, store, x) == Pool(lots, x, Sale))
  }

  /** What the lines ask of a slot. */
  function Asked(lines: seq<RequestLine>, store: Id, slot: Slot): nat {
    Total(lines, (l: RequestLine) => if slot == Slot(store, l.product) then Sum(l.bags) else 0)
  }

  lemma NotAsked(lines: seq<RequestLine>, store: Id, slot: Slot)
    requires forall i :: 0 <= i < |lines| ==> slot != Slot(store, lines[i].product)
    ensures Asked(lines, store, slot) == 0
  {
    TotalZero(lines, (l: RequestLine) => if slot == Slot(store, l.product) then Sum(l.bags) else 0);
  }

  lemma OneMoreLineLeft(lots: seq<Lot>, store: Id, lines: seq<RequestLine>, line: RequestLine, before: seq<Lot>, t: seq<Lot>)
    requires LinesLeft(lots, store, lines, before) && LineLeft(before, Slot(store, line.product), Sum(line.bags), t)
    ensures LinesLeft(lots, store, lines + [line], t)
  {
    TotalPush(lines, line, (l: RequestLine) => Sum(l.bags));
    hide Sum, RoomOf, Pool;
    forall x ensures Pool(t, x, Sale) + Asked(lines + [line], store, x) == Pool(lots, x, Sale) {
      TotalPush(lines, line, (l: RequestLine) => if x == Slot(store, l.product) then Sum(l.bags) else 0);
    }
  }

  lemma {:induction false} DispatchedLots(s: State, store: Id, lines: seq<RequestLine>)
    requires Sound(s.lots) && LotsMatchBags(s) && DistinctProducts(lines)
    requires forall i :: 0 <= i < |lines| ==> Sum(lines[i].bags) <= Pool(s.lots, Slot(store, lines[i].product), Sale)
    ensures var t := DrainLines(s.lots, store, lines);
      Sound(t) && LotsMatchBags(s.(lots := t)) && LinesLeft(s.lots, store, lines, t)
  {
    hide Sum, Sound, LotsMatchBags, RoomOf, Pool, Drain, LineLeft;
    if |lines| > 0 {
      var n := |lines| - 1;
      var slot, g := Slot(store, lines[n].product), Sum(lines[n].bags);
      assert lines == lines[..n] + [lines[n]];
      assert forall i :: 0 <= i < n ==> lines[..n][i] == lines[i] && lines[i].product != lines[n].product;
      DispatchedLots(s, store, lines[..n]);
      NotAsked(lines[..n], store, slot);
      var before := DrainLines(s.lots, store, lines[..n]);
      LineLeaves(s.(lots := before), slot, g);
      OneMoreLineLeft(s.lots, store, lines[..n], lines[n], before, DrainLines(s.lots, store, lines));
    }
  }

  lemma {:induction false} SameGrams(lines: seq<RequestLine>)
    ensures LineGrams(TransferLines(lines)) == RequestedGrams(lines)
  {
    TotalSame(TransferLines(lines), (l: TransferLine) => l.grams, lines, (l: RequestLine) => Sum(l.bags));
  }

  lemma DispatchKeepsInv(s: State, source: Id, destination: Id, open: bool, lines: seq<RequestLine>)
    requires Inv(s) && Dispatch(s, source, destination, open, lines).Done?
    ensures Inv(Dispatch(s, source, destination, open, lines).state)
  {
    hide Sum, Pool, RoomOf, Sound, DrainLines, FirstError, MovedOut, Disposed;
    var t := Dispatch(s, source, destination, open, lines).state;
    assert FirstError(s.lots, source, lines).None? && DistinctProducts(lines) && t.lots == DrainLines(s.lots, source, lines);
    NoError(s.lots, source, lines);
    DispatchedLots(s, source, lines);
    hide DistinctProducts;
    SameGrams(lines);
    DispatchedRoad(s.transfers, Transfer(source, destination, TransferLines(lines), InTransit, 0));
    hide OnTheRoad, LineGrams, RequestedGrams;
    ChangeKeepsBooks(s, t, Slot(source, 0), 0, 0);
  }

  lemma DispatchedRoad(transfers: seq<Transfer>, transfer: Transfer)
    requires transfer.status == InTransit
    ensures OnTheRoad(transfers + [transfer]) == OnTheRoad(transfers) + LineGrams(transfer.lines)
  {
    TotalPush(transfers, transfer, (t: Transfer) => if t.status == InTransit then LineGrams(t.lines) else 0);
  }

  /** A lot that arrives holds its weight as Sale, all of it credited: no room. */
  lemma ArrivalIsPending(s: State, slot: Slot, transfer: nat, g: nat, early: nat)
    requires Whole(s, early)
    ensures Pending(s.(lots := s.lots + [ArrivedLot(slot, transfer, g)]), slot, early + g)
  {
    var t := s.(lots := s.lots + [ArrivedLot(slot, transfer, g)]);
    LotAdded(s.lots, ArrivedLot(slot, transfer, g));
    hide Sum, Pool, RoomOf;
    ChangeKeepsBooks(s, t, slot, early, early + g);
  }

  lemma ReceiveLineKeepsWhole(s: State, slot: Slot, transfer: nat, g: nat, env: Env, early: nat)
    requires Whole(s, early)
    ensures Whole(ReceiveLine(s, slot, transfer, g, env), early + g)
  {
    assert KeysMatch(s);
    PrepareKeepsWhole(s, slot, env, early);
    PrepareKeepsRest(s, slot, env);
    hide Whole, Pending, PrepareCredit, Settle, MarkCredit;
    var prepared := PrepareCredit(s, slot, env);
    ArrivalIsPending(prepared, slot, transfer, g, early);
    var arrived := prepared.(lots := s.lots + [ArrivedLot(slot, transfer, g)]);
    MarkKeepsPending(arrived, slot, env.period, early + g);
    SettleCompletes(MarkCredit(arrived, slot, env.period), slot, early + g);
  }

  lemma GramsOf(lines: seq<TransferLine>)
    ensures LineGrams(lines) == if lines == [] then 0 else LineGrams(lines[..|lines| - 1]) + lines[|lines| - 1].grams
  {
  }

  lemma NextReceiveLine(s: State, slot: Slot, transfer: nat, g: nat, env: Env, early: nat, early': nat)
    requires Whole(s, early) && early' == early + g
    ensures Whole(ReceiveLine(s, slot, transfer, g, env), early')
  {
    hide *;
    ReceiveLineKeepsWhole(s, slot, transfer, g, env, early);
  }

  lemma {:induction false} ReceiveLinesKeepWhole(s: State, store: Id, transfer: nat, lines: seq<TransferLine>, env: Env)
    requires Whole(s, 0)
    ensures Whole(ReceiveLines(s, store, transfer, lines, env), LineGrams(lines))
  {
    assert KeysMatch(s);
    hide Whole, KeysMatch, LineGrams, ReceiveLine;
    GramsOf(lines);
    if lines != [] {
      var front, line := lines[..|lines| - 1], lines[|lines| - 1];
      ReceiveLinesKeepWhole(s, store, transfer, front, env);
      NextReceiveLine(ReceiveLines(s, store, transfer, front, env), Slot(store, line.product), transfer, line.grams, env, LineGrams(front), LineGrams(lines));
    }
  }

  lemma ReturnLineKeepsWhole(s: State, slot: Slot, transfer: nat, g: nat, early: nat)
    requires Whole(s, early)
    ensures Whole(ReturnLine(s, slot, transfer, g), early + g)
  {
    assert KeysMatch(s);
    hide Whole, Pending, Settle;
    ArrivalIsPending(s, slot, transfer, g, early);
    SettleCompletes(s.(lots := s.lots + [ArrivedLot(slot, transfer, g)]), slot, early + g);
  }

  lemma NextReturnLine(s: State, slot: Slot, transfer: nat, g: nat, early: nat, early': nat)
    requires Whole(s, early) && early' == early + g
    ensures Whole(ReturnLine(s, slot, transfer, g), early')
  {
    hide *;
    ReturnLineKeepsWhole(s, slot, transfer, g, early);
  }

  lemma {:induction false} ReturnLinesKeepWhole(s: State, store: Id, transfer: nat, lines: seq<TransferLine>)
    requires Whole(s, 0)
    ensures Whole(ReturnLines(s, store, transfer, lines), LineGrams(lines))
  {
    assert KeysMatch(s);
    hide Whole, KeysMatch, LineGrams, ReturnLine;
    GramsOf(lines);
    if lines != [] {
      var front, line := lines[..|lines| - 1], lines[|lines| - 1];
      ReturnLinesKeepWhole(s, store, transfer, front);
      NextReturnLine(ReturnLines(s, store, transfer, front), Slot(store, line.product), transfer, line.grams, LineGrams(front), LineGrams(lines));
    }
  }

  lemma LineKeepsDocuments(s: State, slot: Slot, transfer: nat, g: nat, env: Env)
    requires KeysMatch(s)
    ensures var t := ReceiveLine(s, slot, transfer, g, env);
      t.transfers == s.transfers && t.bags == s.bags && t.history == s.history && t.outbounds == s.outbounds
    ensures var t := ReturnLine(s, slot, transfer, g);
      t.transfers == s.transfers && t.bags == s.bags && t.history == s.history && t.outbounds == s.outbounds
  {
    hide Settle;
  }

  lemma {:induction false} LinesKeepDocuments(s: State, store: Id, transfer: nat, lines: seq<TransferLine>, env: Env)
    requires KeysMatch(s)
    ensures var t := ReceiveLines(s, store, transfer, lines, env);
      t.transfers == s.transfers && t.bags == s.bags && t.history == s.history && t.outbounds == s.outbounds
    ensures var t := ReturnLines(s, store, transfer, lines);
      t.transfers == s.transfers && t.bags == s.bags && t.history == s.history && t.outbounds == s.outbounds
  {
    hide ReceiveLine, ReturnLine, KeysMatch;
    if |lines| > 0 {
      var front, line := lines[..|lines| - 1], lines[|lines| - 1];
      LinesKeepDocuments(s, store, transfer, front, env);
      LineKeepsDocuments(ReceiveLines(s, store, transfer, front, env), Slot(store, line.product), transfer, line.grams, env);
      LineKeepsDocuments(ReturnLines(s, store, transfer, front), Slot(store, line.product), transfer, line.grams, env);
    }
  }

  /** Closing a transfer takes off the road what its lots brought in. */
  lemma CloseTransfer(s: State, transfer: nat, closed: Transfer)
    requires transfer < |s.transfers| && s.transfers[transfer].status == InTransit && closed.status != InTransit
    requires Whole(s, LineGrams(s.transfers[transfer].lines))
    ensures Inv(s.(transfers := s.transfers[transfer := closed]))
  {
    var g := LineGrams(s.transfers[transfer].lines);
    TotalSet(s.transfers, transfer, closed, (t: Transfer) => if t.status == InTransit then LineGrams(t.lines) else 0);
    ChangeKeepsBooks(s, s.(transfers := s.transfers[transfer := closed]), Slot(0, 0), g, 0);
  }

  lemma ReceiveKeepsInv(s: State, transfer: nat, expectedVersion: nat, env: Env)
    requires Inv(s) && Receive(s, transfer, expectedVersion, env).Done?
    ensures Inv(Receive(s, transfer, expectedVersion, env).state)
  {
    assert KeysMatch(s);
    hide Whole, ReceiveLines;
    var t := s.transfers[transfer];
    ReceiveLinesKeepWhole(s, t.destination, transfer, t.lines, env);
    LinesKeepDocuments(s, t.destination, transfer, t.lines, env);
    CloseTransfer(ReceiveLines(s, t.destination, transfer, t.lines, env), transfer, t.(status := Arrived, version := 1));
  }

  lemma WithdrawKeepsInv(s: State, transfer: nat, expectedVersion: nat, env: Env)
    requires Inv(s) && Withdraw(s, transfer, expectedVersion).Done?
    ensures Inv(Withdraw(s, transfer, expectedVersion).state)
  {
    assert KeysMatch(s);
    hide Whole, ReturnLines;
    var t := s.transfers[transfer];
    ReturnLinesKeepWhole(s, t.source, transfer, t.lines);
    LinesKeepDocuments(s, t.source, transfer, t.lines, env);
    CloseTransfer(ReturnLines(s, t.source, transfer, t.lines), transfer, t.(status := Withdrawn, version := t.version + 1));
  }

  // ---------------------------------------------------------------------------------------------
  // Runs
  // ---------------------------------------------------------------------------------------------

  const NO_FIGURES := Env(0, _ => Figures(None, None))

  /** Every command keeps the invariant, refused or not. */
  lemma CommandKeepsInv(s: State, c: Command)
    requires Inv(s) && Wellformed(c)
    ensures Inv(After(s, c))
  {
    assert KeysMatch(s);
    hide Inv, ReceiveBag, SortBag, RequestOutbound, ReviewOutbound, MoveBucket, MoveLotCharity, Observe, Dispatch, Receive, Withdraw;
    match c {
      case DoReceiveBag(slot, g) => ReceiveBagKeepsInv(s, slot, g);
      case DoSort(bag, version, field, g, env) =>
        if Execute(s, c).Done? { SortBagKeepsInv(s, bag, version, field, g, env); }
        assert !SortBag(s, bag, version, field, g, env).ChangedThenFailed? by { OnlyLotMovesFailLate(s, c); }
      case DoRequestOutbound(bag, version, g) =>
        if Execute(s, c).Done? { RequestOutboundKeepsInv(s, bag, version, g); }
        assert !RequestOutbound(s, bag, version, g).ChangedThenFailed? by { OnlyLotMovesFailLate(s, c); }
      case DoReviewOutbound(i, version, approve, noted) =>
        if Execute(s, c).Done? { ReviewOutboundKeepsInv(s, i, version, approve, noted); }
        assert !ReviewOutbound(s, i, version, approve, noted).ChangedThenFailed? by { OnlyLotMovesFailLate(s, c); }
      case DoMove(slot, move, g, env) =>
        if Execute(s, c).Done? { MoveBucketKeepsInv(s, slot, move, g, env); }
        assert !MoveBucket(s, slot, move, g, env).ChangedThenFailed? by { OnlyLotMovesFailLate(s, c); }
      case DoMoveLot(lot, seen, g, toSale, env) =>
        if !Execute(s, c).Refused? { MoveLotKeepsInv(s, lot, seen, g, toSale, env); }
      case DoObserve(store, period, figures) => ObserveKeepsInv(s, store, period, figures);
      case DoDispatch(source, destination, open, lines) =>
        if Execute(s, c).Done? { DispatchKeepsInv(s, source, destination, open, lines); }
        assert !Dispatch(s, source, destination, open, lines).ChangedThenFailed? by { OnlyLotMovesFailLate(s, c); }
      case DoReceive(transfer, version, env) =>
        if Execute(s, c).Done? { ReceiveKeepsInv(s, transfer, version, env); }
        assert !Receive(s, transfer, version, env).ChangedThenFailed? by { OnlyLotMovesFailLate(s, c); }
      case DoWithdraw(transfer, version) =>
        if Execute(s, c).Done? { WithdrawKeepsInv(s, transfer, version, NO_FIGURES); }
        assert !Withdraw(s, transfer, version).ChangedThenFailed? by { OnlyLotMovesFailLate(s, c); }
    }
  }

  lemma ObserveKeepsInv(s: State, store: Id, period: Period, figures: map<Id, Figures>)
    requires Inv(s)
    ensures Inv(Observe(s, store, period, figures))
  {
    ObserveProductsKeepWhole(s, store, period, figures, ReportedProducts(s, s.lots, store, period), 0);
  }

  /** The one command that can fail after changing the state: charity of a lot that came from a transfer. */
  lemma OnlyLotMovesFailLate(s: State, c: Command)
    requires KeysMatch(s)
    ensures Execute(s, c).ChangedThenFailed? <==>
      && c.DoMoveLot? && c.seen && c.lot < |s.lots| && s.lots[c.lot].source.FromTransfer?
      && 0 < c.weight <= s.lots[c.lot].charity && (c.toSale || c.weight == s.lots[c.lot].charity)
  {
    hide Settle, Drain, DrainLines, ReceiveLines, ReturnLines, ObserveProducts, AddToLot, PrepareCredit;
  }

  ghost function Run(s: State, commands: seq<Command>): (r: State)
    requires Inv(s) && forall c :: c in commands ==> Wellformed(c)
    ensures Inv(r)
    decreases |commands|
  {
    if |commands| == 0 then s
    else
      CommandKeepsInv(s, commands[0]);
      Run(After(s, commands[0]), commands[1..])
  }

  lemma EmptyIsSound()
    ensures Inv(EMPTY)
  {
    forall x ensures Balanced(EMPTY, x) && SettledAt(EMPTY, x) {
      assert Rooms([], x) == [] && Amounts([], x, Sale) == [];
    }
    assert Weights([]) == [];
  }

  // ---------------------------------------------------------------------------------------------
  // Baselines
  // ---------------------------------------------------------------------------------------------

  function FigureOf(figures: Figures, kind: SaleKind): Option<nat> {
    match kind
    case ByWeight => figures.byWeight
    case ByPiece => figures.byPiece
  }

  /** What a counter charges after a first report `v` and a later one `w`: only sales since the figure
  on record when the slot was credited, or, without one, since the first report. */
  lemma EarlierSalesAreNotCharged(s: State, slot: Slot, env: Env, kind: SaleKind, v: nat, w: nat)
    requires KeysMatch(s) && CounterKey(slot, env.period, kind) !in s.counters
    ensures var key := CounterKey(slot, env.period, kind);
      var b, figure := InitializeBaseline(s, slot, env), FigureOf(env.figures(slot), kind);
      var first := ObserveFigure(b, key, Some(v));
      var later := ObserveFigure(first, key, Some(w));
      && key in b.counters && Target(b.counters[key]) == 0
      && key in first.counters && Target(first.counters[key]) == (if figure.Some? then Monus(v, figure.value) else 0)
      && key in later.counters && Target(later.counters[key]) == Monus(w, if figure.Some? then figure.value else v)
  {
  }

  // ---------------------------------------------------------------------------------------------
  // A late failure that a run reaches
  // ---------------------------------------------------------------------------------------------

  /** Weight of a product is received in one store, sorted, sent to another, received there and moved
  to Charity. */
  function SentAndGiven(here: Id, there: Id, product: Id, g: nat): (r: seq<Command>)
    ensures |r| == 5
  {
    [DoReceiveBag(Slot(here, product), g),
     DoSort(0, 0, Sale, g, NO_FIGURES),
     DoDispatch(here, there, true, [RequestLine(product, true, [g])]),
     DoReceive(0, 0, NO_FIGURES),
     DoMove(Slot(there, product), MOVE_SALE_TO_CHARITY, g, NO_FIGURES)]
  }

  /** Counters that ask for nothing. */
  ghost predicate Quiet(s: State) {
    KeysMatch(s) && forall k :: k in s.counters ==> s.counters[k].applied == 0 && Target(s.counters[k]) == 0
  }

  lemma QuietStays(s: State, slot: Slot)
    requires Quiet(s)
    ensures Settle(s, slot) == s
  {
    SlotKeysKnown(s, slot);
    SettledStays(s.lots, slot, s.counters, SlotKeys(s, slot));
  }

  lemma QuietPrepared(s: State, slot: Slot)
    requires Quiet(s)
    ensures Quiet(PrepareCredit(s, slot, NO_FIGURES))
  {
  }

  lemma OneLotGives(lot: Lot, from: Field, to: Dest)
    ensures Pool([lot], lot.slot, from) == Weight(lot, from)
    ensures Drain([lot], lot.slot, from, to, Weight(lot, from)) == [Move(lot, from, to, Weight(lot, from))]
  {
    var q := Amounts([lot], lot.slot, from);
    FirstComeAt(q, Weight(lot, from), 0);
    hide FirstCome, Move;
    assert q[..0] == [] && q[..1] == q;
    DrainAt([lot], lot.slot, from, to, Weight(lot, from), 0);
  }

  lemma SecondLotGives(first: Lot, lot: Lot, from: Field, to: Dest)
    requires first.slot != lot.slot
    ensures Pool([first, lot], lot.slot, from) == Weight(lot, from)
    ensures Drain([first, lot], lot.slot, from, to, Weight(lot, from))[1] == Move(lot, from, to, Weight(lot, from))
  {
    var q := Amounts([first, lot], lot.slot, from);
    FirstComeAt(q, Weight(lot, from), 0);
    FirstComeAt(q, Weight(lot, from), 1);
    hide FirstCome, Move;
    assert q[..0] == [] && q[..2] == q;
    DrainAt([first, lot], lot.slot, from, to, Weight(lot, from), 1);
  }

  lemma SortStep(s: State, slot: Slot, g: nat)
    requires Quiet(s) && g > 0 && s.lots == [] && s.bags == [Bag(slot, g, g, Available, 0)]
    ensures var r := SortBag(s, 0, 0, Sale, g, NO_FIGURES);
      r.Done? && Quiet(r.state) && r.state.lots == [Lot(slot, FromBag(0), g, 0, 0, g, 0)] && r.state.transfers == s.transfers
  {
    hide Settle, Quiet;
    assert KeysMatch(s) by { QuietMatches(s); }
    QuietPrepared(s, slot);
    PrepareKeepsRest(s, slot, NO_FIGURES);
    var prepared := PrepareCredit(s, slot, NO_FIGURES);
    assert AddToLot([], slot, 0, Sale, g) == [Lot(slot, FromBag(0), g, 0, 0, g, 0)];
    var sorted := prepared.(bags := s.bags[0 := OpenBag(s.bags[0], g)], lots := [Lot(slot, FromBag(0), g, 0, 0, g, 0)]);
    hide PrepareCredit, AddToLot;
    QuietMarked(prepared, sorted, slot, 0);
    var credited := MarkCredit(sorted, slot, 0);
    QuietStays(credited, slot);
    QuietMarked(credited, credited.(history := credited.history + [Entry(slot, SortSale, g)]), slot, 0);
  }

  lemma QuietMatches(s: State)
    requires Quiet(s)
    ensures KeysMatch(s)
  {
  }

  lemma QuietMarked(s: State, t: State, slot: Slot, period: Period)
    requires Quiet(s) && t.keys == s.keys && t.counters == s.counters
    ensures Quiet(t) && Quiet(MarkCredit(t, slot, period))
  {
  }

  lemma DispatchStep(s: State, here: Id, there: Id, product: Id, g: nat)
    requires Quiet(s) && g > 0 && here != there && s.lots == [Lot(Slot(here, product), FromBag(0), g, 0, 0, g, 0)] && s.transfers == []
    ensures var r := Dispatch(s, here, there, true, [RequestLine(product, true, [g])]);
      r.Done? && Quiet(r.state) && r.state.lots == [Lot(Slot(here, product), FromBag(0), 0, 0, 0, g, g)]
      && r.state.transfers == [Transfer(here, there, [TransferLine(product, g)], InTransit, 0)]
  {
    hide Drain, Pool, Quiet;
    var line := RequestLine(product, true, [g]);
    var lines := [line];
    OneLotGives(s.lots[0], Sale, Transferred);
    SumOne(g);
    assert lines[..0] == [] && LineError(s.lots, here, line) == None;
    assert FirstError(s.lots, here, []) == None && DrainLines(s.lots, here, []) == s.lots;
    assert FirstError(s.lots, here, lines) == None;
    assert DrainLines(s.lots, here, lines) == Drain(s.lots, Slot(here, product), Sale, Transferred, g);
    assert TransferLines(lines) == [TransferLine(product, g)];
    QuietMarked(s, Dispatch(s, here, there, true, lines).state, Slot(here, product), 0);
  }

  lemma ReceiveStep(s: State, here: Id, there: Id, product: Id, g: nat)
    requires Quiet(s) && |s.lots| == 1 && s.transfers == [Transfer(here, there, [TransferLine(product, g)], InTransit, 0)]
    ensures KeysMatch(s)
    ensures var r := Receive(s, 0, 0, NO_FIGURES);
      r.Done? && Quiet(r.state) && r.state.lots == s.lots + [ArrivedLot(Slot(there, product), 0, g)]
  {
    hide Settle, Quiet;
    QuietMatches(s);
    var slot := Slot(there, product);
    QuietPrepared(s, slot);
    PrepareKeepsRest(s, slot, NO_FIGURES);
    var prepared := PrepareCredit(s, slot, NO_FIGURES);
    var arrived := prepared.(lots := s.lots + [ArrivedLot(slot, 0, g)]);
    QuietMarked(prepared, arrived, slot, 0);
    var t := MarkCredit(arrived, slot, 0);
    QuietStays(t, slot);
    assert ReceiveLine(s, slot, 0, g, NO_FIGURES) == t;
    hide PrepareCredit, ReceiveLine;
    var lines := s.transfers[0].lines;
    assert lines[..0] == [] && ReceiveLines(s, there, 0, [], NO_FIGURES) == s;
    assert ReceiveLines(s, there, 0, lines, NO_FIGURES) == t;
    QuietMarked(t, Receive(s, 0, 0, NO_FIGURES).state, slot, 0);
  }

  lemma CharityStep(s: State, first: Lot, slot: Slot, g: nat)
    requires KeysMatch(s) && g > 0 && first.slot != slot && s.lots == [first, ArrivedLot(slot, 0, g)]
    ensures var r := MoveBucket(s, slot, MOVE_SALE_TO_CHARITY, g, NO_FIGURES);
      r.Done? && KeysMatch(r.state) && |r.state.lots| == 2 && r.state.lots[1] == Lot(slot, FromTransfer(0), 0, g, 0, g, 0)
  {
    hide Drain, Pool;
    SecondLotGives(first, s.lots[1], Sale, Into(Charity));
  }

  /** A run from the start reaches a state in which giving the received grams back to Sale changes the
  state and then fails. */
  lemma LateFailureIsReachable(here: Id, there: Id, product: Id, g: nat)
    requires here != there && g > 0
    ensures Inv(EMPTY) && forall c :: c in SentAndGiven(here, there, product, g) ==> Wellformed(c)
    ensures var s := Run(EMPTY, SentAndGiven(here, there, product, g));
      KeysMatch(s) && Execute(s, DoMoveLot(1, true, g, true, NO_FIGURES)).ChangedThenFailed?
  {
    EmptyIsSound();
    var c := SentAndGiven(here, there, product, g);
    var s := RunPrefix(here, there, product, g);
    hide Execute, Run;
    OnlyLotMovesFailLate(s, DoMoveLot(1, true, g, true, NO_FIGURES));
  }

  lemma RunPrefix(here: Id, there: Id, product: Id, g: nat) returns (s: State)
    requires here != there && g > 0
    ensures Inv(EMPTY) && forall c :: c in SentAndGiven(here, there, product, g) ==> Wellformed(c)
    ensures s == Run(EMPTY, SentAndGiven(here, there, product, g))
    ensures KeysMatch(s) && |s.lots| == 2 && s.lots[1] == Lot(Slot(there, product), FromTransfer(0), 0, g, 0, g, 0)
  {
    hide Inv, Run, Quiet, KeysMatch;
    EmptyIsSound();
    var c := SentAndGiven(here, there, product, g);
    var sent := UntilSent(here, there, product, g);
    var arrived := UntilArrived(here, there, product, g, sent);
    QuietMatches(arrived);
    CharityStep(arrived, arrived.lots[0], Slot(there, product), g);
    s := MoveBucket(arrived, Slot(there, product), MOVE_SALE_TO_CHARITY, g, NO_FIGURES).state;
    hide MoveBucket;
    RunStep(arrived, c, 4, s);
    assert c[0..] == c && c[5..] == [];
  }

  lemma UntilSent(here: Id, there: Id, product: Id, g: nat) returns (s: State)
    requires here != there && g > 0
    ensures Inv(EMPTY) && Inv(s) && Quiet(s) && forall c :: c in SentAndGiven(here, there, product, g) ==> Wellformed(c)
    ensures Run(EMPTY, SentAndGiven(here, there, product, g)[0..]) == Run(s, SentAndGiven(here, there, product, g)[2..])
    ensures s.lots == [Lot(Slot(here, product), FromBag(0), g, 0, 0, g, 0)] && s.transfers == []
  {
    hide Inv, Run, Quiet, SortBag, KeysMatch;
    EmptyIsSound();
    var c := SentAndGiven(here, there, product, g);
    var received := ReceiveBag(EMPTY, Slot(here, product), g);
    QuietStart(Slot(here, product), g);
    QuietMatches(received);
    SortStep(received, Slot(here, product), g);
    s := SortBag(received, 0, 0, Sale, g, NO_FIGURES).state;
    RunStep(EMPTY, c, 0, received);
    RunStep(received, c, 1, s);
  }

  lemma UntilArrived(here: Id, there: Id, product: Id, g: nat, sent: State) returns (s: State)
    requires here != there && g > 0 && Inv(sent) && Quiet(sent)
    requires forall c :: c in SentAndGiven(here, there, product, g) ==> Wellformed(c)
    requires sent.lots == [Lot(Slot(here, product), FromBag(0), g, 0, 0, g, 0)] && sent.transfers == []
    ensures Inv(s) && Quiet(s) && Run(sent, SentAndGiven(here, there, product, g)[2..]) == Run(s, SentAndGiven(here, there, product, g)[4..])
    ensures s.lots == [Lot(Slot(here, product), FromBag(0), 0, 0, 0, g, g), ArrivedLot(Slot(there, product), 0, g)]
  {
    hide Inv, Run, Quiet, Dispatch, Receive, KeysMatch;
    var c := SentAndGiven(here, there, product, g);
    QuietMatches(sent);
    DispatchStep(sent, here, there, product, g);
    var dispatched := Dispatch(sent, here, there, true, [RequestLine(product, true, [g])]).state;
    ReceiveStep(dispatched, here, there, product, g);
    s := Receive(dispatched, 0, 0, NO_FIGURES).state;
    RunStep(sent, c, 2, dispatched);
    RunStep(dispatched, c, 3, s);
  }

  lemma QuietStart(slot: Slot, g: nat)
    ensures KeysMatch(EMPTY) && Quiet(ReceiveBag(EMPTY, slot, g))
  {
  }

  lemma RunStep(s: State, commands: seq<Command>, i: nat, after: State)
    requires Inv(s) && i < |commands| && (forall c :: c in commands ==> Wellformed(c)) && after == After(s, commands[i])
    ensures Inv(after) && (forall c :: c in commands[i..] ==> Wellformed(c)) && Run(s, commands[i..]) == Run(after, commands[i + 1..])
    ensures commands[i + 1..] == [] ==> Run(after, commands[i + 1..]) == after
  {
    hide Inv, After;
    CommandKeepsInv(s, commands[i]);
    assert commands[i..][1..] == commands[i + 1..];
  }

  // ---------------------------------------------------------------------------------------------
  // What the invariant means to a store
  // ---------------------------------------------------------------------------------------------

  /** The credited weight of a slot's lots. */
  function Credited(lots: seq<Lot>, slot: Slot): seq<nat> {
    seq(|lots|, i requires 0 <= i < |lots| => if lots[i].slot == slot then lots[i].credited else 0)
  }

  function TransferredOut(lots: seq<Lot>, slot: Slot): seq<nat> {
    seq(|lots|, i requires 0 <= i < |lots| => if lots[i].slot == slot then lots[i].out else 0)
  }

  /** The breakdown's "sold by weight": what was credited and is accounted for in no other way.  In
  every reachable state it is what the counters applied, so the report's clamp at zero never acts. */
  lemma BreakdownIsExact(s: State, slot: Slot)
    requires Inv(s)
    ensures Sum(Credited(s.lots, slot)) - Pool(s.lots, slot, Sale) - Sum(TransferredOut(s.lots, slot)) - MovedOut(s.history, slot)
         == AppliedIn(s, slot)
  {
    assert Balanced(s, slot);
    var q := seq(|s.lots|, i requires 0 <= i < |s.lots| => if s.lots[i].slot == slot then s.lots[i].out + s.lots[i].sale else 0);
    SumPlus(TransferredOut(s.lots, slot), Amounts(s.lots, slot, Sale), q);
    forall i | 0 <= i < |s.lots| ensures Credited(s.lots, slot)[i] == q[i] + Rooms(s.lots, slot)[i] {
      assert s.lots[i] in s.lots;
    }
    SumPlus(q, Rooms(s.lots, slot), Credited(s.lots, slot));
  }

  // ---------------------------------------------------------------------------------------------
  // What a transfer brings
  // ---------------------------------------------------------------------------------------------

  /** The lots' credits, transfers out, slots and sources agree. */
  ghost predicate SameCredits(a: seq<Lot>, b: seq<Lot>) {
    |a| == |b| && forall i :: 0 <= i < |a| ==>
      a[i].slot == b[i].slot && a[i].source == b[i].source && a[i].credited == b[i].credited && a[i].out == b[i].out
  }

  /** Settling moves Sale weight only: what lots were credited with and sent away stays. */
  lemma SettleKeepsCredits(s: State, slot: Slot)
    requires KeysMatch(s)
    ensures SameCredits(s.lots, Settle(s, slot).lots)
  {
    hide Sum, KeysOf;
  }

  /** Lots from `|prior|` on are the lots of the transfer's lines, each credited with its line's weight. */
  ghost predicate BroughtIn(prior: seq<Lot>, lots: seq<Lot>, store: Id, transfer: nat, lines: seq<TransferLine>) {
    && |lots| == |prior| + |lines|
    && SameCredits(prior, lots[..|prior|])
    && forall i :: 0 <= i < |lines| ==>
         SameCredits([ArrivedLot(Slot(store, lines[i].product), transfer, lines[i].grams)], [lots[|prior| + i]])
  }

  lemma OneMoreBroughtIn(prior: seq<Lot>, before: seq<Lot>, lots: seq<Lot>, store: Id, transfer: nat,
                         lines: seq<TransferLine>, line: TransferLine)
    requires BroughtIn(prior, before, store, transfer, lines)
    requires SameCredits(before + [ArrivedLot(Slot(store, line.product), transfer, line.grams)], lots)
    ensures BroughtIn(prior, lots, store, transfer, lines + [line])
  {
    var arrived := before + [ArrivedLot(Slot(store, line.product), transfer, line.grams)];
    forall i | 0 <= i < |lines| + 1
      ensures var l := (lines + [line])[i];
        SameCredits([ArrivedLot(Slot(store, l.product), transfer, l.grams)], [lots[|prior| + i]])
    {
      assert i < |lines| ==> arrived[|prior| + i] == before[|prior| + i];
      if i < |lines| {
        assert SameCredits([ArrivedLot(Slot(store, lines[i].product), transfer, lines[i].grams)], [before[|prior| + i]]);
        assert [before[|prior| + i]][0] == before[|prior| + i];
      }
    }
    forall i | 0 <= i < |prior| ensures prior[i].credited == lots[i].credited && prior[i].out == lots[i].out
                                      && prior[i].slot == lots[i].slot && prior[i].source == lots[i].source
    {
      assert before[..|prior|][i] == before[i] && arrived[i] == before[i];
    }
  }

  lemma LineCredits(s: State, slot: Slot, transfer: nat, g: nat, env: Env)
    requires KeysMatch(s)
    ensures SameCredits(s.lots + [ArrivedLot(slot, transfer, g)], ReceiveLine(s, slot, transfer, g, env).lots)
    ensures SameCredits(s.lots + [ArrivedLot(slot, transfer, g)], ReturnLine(s, slot, transfer, g).lots)
  {
    hide SameCredits;
    PrepareKeepsRest(s, slot, env);
    var arrived := PrepareCredit(s, slot, env).(lots := s.lots + [ArrivedLot(slot, transfer, g)]);
    SettleKeepsCredits(MarkCredit(arrived, slot, env.period), slot);
    SettleKeepsCredits(s.(lots := s.lots + [ArrivedLot(slot, transfer, g)]), slot);
    hide Settle, PrepareCredit;
  }

  /** Each line of a received transfer is credited exactly once, to the destination. */
  lemma {:induction false} ReceivedLinesAreCreditedOnce(s: State, store: Id, transfer: nat, lines: seq<TransferLine>, env: Env)
    requires KeysMatch(s)
    ensures BroughtIn(s.lots, ReceiveLines(s, store, transfer, lines, env).lots, store, transfer, lines)
  {
    hide BroughtIn, SameCredits, ReceiveLine, KeysMatch;
    NothingBroughtIn(s.lots, store, transfer);
    if |lines| > 0 {
      var front, line := lines[..|lines| - 1], lines[|lines| - 1];
      ReceivedLinesAreCreditedOnce(s, store, transfer, front, env);
      var before := ReceiveLines(s, store, transfer, front, env);
      var after := ReceiveLine(before, Slot(store, line.product), transfer, line.grams, env);
      assert ReceiveLines(s, store, transfer, lines, env) == after && lines == front + [line];
      hide ReceiveLines;
      LineCredits(before, Slot(store, line.product), transfer, line.grams, env);
      OneMoreBroughtIn(s.lots, before.lots, after.lots, store, transfer, front, line);
    }
  }

  /** Each line of a withdrawn transfer is credited exactly once, back to the source. */
  lemma {:induction false} ReturnedLinesAreCreditedOnce(s: State, store: Id, transfer: nat, lines: seq<TransferLine>)
    requires KeysMatch(s)
    ensures BroughtIn(s.lots, ReturnLines(s, store, transfer, lines).lots, store, transfer, lines)
  {
    hide BroughtIn, SameCredits, ReturnLine, KeysMatch;
    NothingBroughtIn(s.lots, store, transfer);
    if |lines| > 0 {
      var front, line := lines[..|lines| - 1], lines[|lines| - 1];
      ReturnedLinesAreCreditedOnce(s, store, transfer, front);
      var before := ReturnLines(s, store, transfer, front);
      var after := ReturnLine(before, Slot(store, line.product), transfer, line.grams);
      assert ReturnLines(s, store, transfer, lines) == after && lines == front + [line];
      hide ReturnLines;
      LineCredits(before, Slot(store, line.product), transfer, line.grams, NO_FIGURES);
      OneMoreBroughtIn(s.lots, before.lots, after.lots, store, transfer, front, line);
    }
  }

  lemma NothingBroughtIn(lots: seq<Lot>, store: Id, transfer: nat)
    ensures BroughtIn(lots, lots, store, transfer, [])
  {
  }
}
