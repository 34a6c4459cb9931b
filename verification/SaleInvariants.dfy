/** What holds in every reachable state of the Sale pool ledger. */
module SaleInvariants {
  import opened Common
  import opened Quantities
  import opened Ordering
  import opened SaleLots
  import opened SaleSettlement
  import opened SalePool

  // ---------------------------------------------------------------------------------------------
  // The books
  // ---------------------------------------------------------------------------------------------

  function AppliedOf(counters: Counters, k: CounterKey): nat {
    if k in counters then counters[k].applied else 0
  }

  /** Applied to the lots of a slot by all its counters. */
  function AppliedIn(s: State, slot: Slot): nat {
    Total(s.keys, (k: CounterKey) => if k.slot == slot then AppliedOf(s.counters, k) else 0)
  }

  function AppliedElsewhere(s: State, slot: Slot): nat {
    Total(s.keys, (k: CounterKey) => if k.slot == slot then 0 else AppliedOf(s.counters, k))
  }

  function TotalApplied(s: State): nat {
    Total(s.keys, (k: CounterKey) => AppliedOf(s.counters, k))
  }

  predicate LeavesSale(action: Action) {
    action == SaleToCharity || action == SaleToCancel
  }

  /** Moved from a slot's Sale to Charity or Cancel. */
  function MovedOut(history: seq<Entry>, slot: Slot): nat {
    Total(history, (e: Entry) => if e.slot == slot && LeavesSale(e.action) then e.grams else 0)
  }

  /** Exported as charity or finally cancelled. */
  function Disposed(history: seq<Entry>): nat {
    Total(history, (e: Entry) => if e.action == CharityExport || e.action == CancelFinalize then e.grams else 0)
  }

  function LineGrams(lines: seq<TransferLine>): nat {
    Total(lines, (l: TransferLine) => l.grams)
  }

  function OnTheRoad(transfers: seq<Transfer>): nat {
    Total(transfers, (t: Transfer) => if t.status == InTransit then LineGrams(t.lines) else 0)
  }

  /** Taken out of bags by approved documents. */
  function Shipped(outbounds: seq<Outbound>): nat {
    Total(outbounds, (o: Outbound) => if o.review == Approved then o.grams else 0)
  }

  function InBags(bags: seq<Bag>): nat {
    Total(bags, (b: Bag) => b.remaining)
  }

  /** Everything ever received. */
  function Received(bags: seq<Bag>): nat {
    Total(bags, (b: Bag) => b.original)
  }

  /** Where all of it is now. */
  function Accounted(s: State): nat {
    InBags(s.bags) + Sum(Weights(s.lots)) + TotalApplied(s) + Disposed(s.history) + OnTheRoad(s.transfers) + Shipped(s.outbounds)
  }

  /** The room for reversals is exactly what sales and moves took out of Sale. */
  ghost predicate Balanced(s: State, slot: Slot) {
    RoomOf(s.lots, slot) == AppliedIn(s, slot) + MovedOut(s.history, slot)
  }

  /** Every counter of the slot reached its target, or the slot has no Sale weight left. */
  ghost predicate SettledAt(s: State, slot: Slot)
    requires KeysMatch(s)
  {
    && (forall k :: k in s.keys && k.slot == slot ==> s.counters[k].applied <= Target(s.counters[k]))
    && (Pool(s.lots, slot, Sale) == 0 ||
        forall k :: k in s.keys && k.slot == slot ==> s.counters[k].applied == Target(s.counters[k]))
  }

  /** A lot sorted from a bag is in the bag's slot. */
  ghost predicate LotsMatchBags(s: State) {
    forall lot :: lot in s.lots && lot.source.FromBag? ==>
      lot.source.bag < |s.bags| && s.bags[lot.source.bag].slot == lot.slot
  }

  /** The books without the settled condition; `early` is weight booked in before it is booked out. */
  ghost predicate Books(s: State, early: nat) {
    && KeysMatch(s)
    && Sound(s.lots)
    && LotsMatchBags(s)
    && (forall x :: Balanced(s, x))
    && Accounted(s) == Received(s.bags) + early
  }

  /** Everything except that `slot` may still have to be settled. */
  ghost predicate Pending(s: State, slot: Slot, early: nat) {
    Books(s, early) && forall x :: x != slot ==> SettledAt(s, x)
  }

  ghost predicate Whole(s: State, early: nat) {
    Books(s, early) && forall x :: SettledAt(s, x)
  }

  /** The invariant of the ledger. */
  ghost predicate Inv(s: State) {
    Whole(s, 0)
  }

  // ---------------------------------------------------------------------------------------------
  // Sums over counters
  // ---------------------------------------------------------------------------------------------

  lemma {:induction false} SumOfApplieds(counters: Counters, ks: seq<CounterKey>)
    requires forall k :: k in ks ==> k in counters
    ensures Sum(Applieds(counters, ks)) == Total(ks, (k: CounterKey) => AppliedOf(counters, k))
  {
    if |ks| > 0 {
      var n := |ks| - 1;
      SumOfApplieds(counters, ks[..n]);
      assert Applieds(counters, ks)[..n] == Applieds(counters, ks[..n]);
    }
  }

  lemma AppliedInIsSum(s: State, slot: Slot)
    requires KeysMatch(s)
    ensures forall k :: k in SlotKeys(s, slot) ==> k in s.counters
    ensures AppliedIn(s, slot) == Sum(Applieds(s.counters, SlotKeys(s, slot)))
  {
    SlotKeysKnown(s, slot);
    var mine := Filter(s.keys, (k: CounterKey) => k.slot == slot);
    TotalOfFilter(s.keys, (k: CounterKey) => k.slot == slot, (k: CounterKey) => AppliedOf(s.counters, k),
                  (k: CounterKey) => if k.slot == slot then AppliedOf(s.counters, k) else 0);
    SortPermutes(mine, KeyOrder);
    TotalPermute(SlotKeys(s, slot), mine, (k: CounterKey) => AppliedOf(s.counters, k));
    SumOfApplieds(s.counters, SlotKeys(s, slot));
  }

  lemma AppliedSplit(s: State, slot: Slot)
    ensures TotalApplied(s) == AppliedIn(s, slot) + AppliedElsewhere(s, slot)
  {
    TotalPlus(s.keys, (k: CounterKey) => if k.slot == slot then AppliedOf(s.counters, k) else 0,
              s.keys, (k: CounterKey) => if k.slot == slot then 0 else AppliedOf(s.counters, k),
              s.keys, (k: CounterKey) => AppliedOf(s.counters, k));
  }

  /** Two states with the same keys that agree on the counters of other slots. */
  lemma SameElsewhere(s: State, t: State, slot: Slot)
    requires s.keys == t.keys
    requires forall k :: k in s.keys && k.slot != slot ==> AppliedOf(s.counters, k) == AppliedOf(t.counters, k)
    ensures AppliedElsewhere(s, slot) == AppliedElsewhere(t, slot)
    ensures forall x :: x != slot ==> AppliedIn(s, x) == AppliedIn(t, x)
  {
    assert forall i :: 0 <= i < |s.keys| ==> s.keys[i] in s.keys;
    TotalSame(s.keys, (k: CounterKey) => if k.slot == slot then 0 else AppliedOf(s.counters, k),
              t.keys, (k: CounterKey) => if k.slot == slot then 0 else AppliedOf(t.counters, k));
    forall x | x != slot ensures AppliedIn(s, x) == AppliedIn(t, x) {
      TotalSame(s.keys, (k: CounterKey) => if k.slot == x then AppliedOf(s.counters, k) else 0,
                t.keys, (k: CounterKey) => if k.slot == x then AppliedOf(t.counters, k) else 0);
    }
  }

  // ---------------------------------------------------------------------------------------------
  // Settlement
  // ---------------------------------------------------------------------------------------------

  /** What sales took out of Sale is always there to be reversed. */
  lemma ReversalFits(s: State, slot: Slot)
    requires KeysMatch(s) && Balanced(s, slot)
    ensures Known(s.counters, SlotKeys(s, slot))
    ensures CanReverse(s.lots, slot, s.counters, SlotKeys(s, slot))
  {
    SlotKeysKnown(s, slot);
    AppliedInIsSum(s, slot);
    SumLeq(Excesses(s.counters, SlotKeys(s, slot)), Applieds(s.counters, SlotKeys(s, slot)));
  }

  lemma SettleCounters(s: State, slot: Slot)
    requires KeysMatch(s) && Balanced(s, slot)
    ensures Pool(Settle(s, slot).lots, slot, Sale) + AppliedIn(Settle(s, slot), slot) == Pool(s.lots, slot, Sale) + AppliedIn(s, slot)
    ensures SettledAt(Settle(s, slot), slot)
    ensures forall k :: k in s.keys && k.slot != slot ==> Settle(s, slot).counters[k] == s.counters[k]
  {
    var ks := SlotKeys(s, slot);
    SlotKeysKnown(s, slot);
    ReversalFits(s, slot);
    hide Known, CanReverse, SettledLots, SettledCounters, KeysOf;
    AppliedInIsSum(s, slot);
    AppliedInIsSum(Settle(s, slot), slot);
    SettlementTotals(s.lots, slot, s.counters, ks);
    SettlementSettles(s.lots, slot, s.counters, ks);
    SettledAppliedIs(s.lots, slot, s.counters, ks);
  }

  lemma SettleLots(s: State, slot: Slot)
    requires KeysMatch(s) && Balanced(s, slot) && Sound(s.lots)
    ensures var lots := Settle(s, slot).lots;
      && Sound(lots)
      && RoomOf(lots, slot) + Pool(lots, slot, Sale) == RoomOf(s.lots, slot) + Pool(s.lots, slot, Sale)
      && Sum(Weights(lots)) + Pool(s.lots, slot, Sale) == Sum(Weights(s.lots)) + Pool(lots, slot, Sale)
      && forall x :: x != slot ==> RoomOf(lots, x) == RoomOf(s.lots, x) && Pool(lots, x, Sale) == Pool(s.lots, x, Sale)
  {
    var ks := SlotKeys(s, slot);
    ReversalFits(s, slot);
    hide KeysOf, Refund, Drain, Known, Sum;
    var r, d := Sum(Excesses(s.counters, ks)), Sum(Deficits(s.counters, ks));
    var mid := Refund(s.lots, slot, r);
    RefundSound(s.lots, slot, r);
    RefundTotals(s.lots, slot, r);
    DrainSound(mid, slot, Sale, Gone, d);
    DrainRoom(mid, slot, Sale, Gone, d);
    DrainFrom(mid, slot, Sale, Gone, d);
    DrainWeights(mid, slot, Sale, Gone, d);
    forall x | x != slot
      ensures RoomOf(Settle(s, slot).lots, x) == RoomOf(s.lots, x)
      ensures Pool(Settle(s, slot).lots, x, Sale) == Pool(s.lots, x, Sale)
    {
      RefundOther(s.lots, slot, r, x);
      DrainOther(mid, slot, Sale, Gone, d, x);
    }
  }

  lemma SettleKeepsBags(s: State, slot: Slot)
    requires KeysMatch(s) && LotsMatchBags(s)
    ensures LotsMatchBags(Settle(s, slot))
  {
    hide KeysOf, Sum, FirstCome, LastCome;
    var lots := Settle(s, slot).lots;
    forall lot | lot in lots && lot.source.FromBag?
      ensures lot.source.bag < |s.bags| && s.bags[lot.source.bag].slot == lot.slot
    {
      var i :| 0 <= i < |lots| && lots[i] == lot;
      assert s.lots[i] in s.lots && s.lots[i].slot == lot.slot && s.lots[i].source == lot.source;
    }
  }

  /** Settling the one slot that was pending completes the books. */
  lemma SettleCompletes(s: State, slot: Slot, early: nat)
    requires Pending(s, slot, early)
    ensures Whole(Settle(s, slot), early)
  {
    hide Settle, Sum, SlotKeys, RoomOf, Pool, Sound;
    var t := Settle(s, slot);
    assert Balanced(s, slot);
    SettleCounters(s, slot);
    SettleLots(s, slot);
    SettleKeepsBags(s, slot);
    SameElsewhere(s, t, slot);
    AppliedSplit(s, slot);
    AppliedSplit(t, slot);
    forall x ensures Balanced(t, x) {
      assert Balanced(s, x);
    }
    forall x ensures SettledAt(t, x) {
      if x != slot {
        assert SettledAt(s, x);
      }
    }
  }

  // ---------------------------------------------------------------------------------------------
  // Small changes
  // ---------------------------------------------------------------------------------------------

  lemma PutTotal(keys: seq<CounterKey>, key: CounterKey, added: bool, f: CounterKey -> nat, f': CounterKey -> nat)
    requires forall k :: k in keys ==> f'(k) == f(k)
    requires added ==> f'(key) == 0
    ensures Total(if added then keys + [key] else keys, f') == Total(keys, f)
  {
    assert forall i :: 0 <= i < |keys| ==> keys[i] in keys;
    TotalSame(keys, f, keys, f');
    if added {
      TotalPush(keys, key, f');
    }
  }

  /** Recording a counter that keeps what was applied changes no sum. */
  lemma PutKeepsSums(s: State, key: CounterKey, counter: Counter)
    requires KeysMatch(s) && counter.applied == AppliedOf(s.counters, key)
    ensures var t := PutCounter(s, key, counter);
      TotalApplied(t) == TotalApplied(s) && forall x :: AppliedIn(t, x) == AppliedIn(s, x)
  {
    hide Total;
    var t, added := PutCounter(s, key, counter), key !in s.counters;
    PutTotal(s.keys, key, added, (k: CounterKey) => AppliedOf(s.counters, k), (k: CounterKey) => AppliedOf(t.counters, k));
    forall x ensures AppliedIn(t, x) == AppliedIn(s, x) {
      PutTotal(s.keys, key, added, (k: CounterKey) => if k.slot == x then AppliedOf(s.counters, k) else 0,
               (k: CounterKey) => if k.slot == x then AppliedOf(t.counters, k) else 0);
    }
  }

  lemma PutKeepsBooks(s: State, key: CounterKey, counter: Counter, early: nat)
    requires Books(s, early) && counter.applied == AppliedOf(s.counters, key)
    ensures Books(PutCounter(s, key, counter), early)
    ensures forall x :: x != key.slot && SettledAt(s, x) ==> SettledAt(PutCounter(s, key, counter), x)
  {
    PutKeepsSums(s, key, counter);
    PutKeepsSettled(s, key, counter);
    hide AppliedIn, TotalApplied, RoomOf, MovedOut, Sound, SettledAt;
    var t := PutCounter(s, key, counter);
    forall x ensures Balanced(t, x) {
      assert Balanced(s, x);
    }
  }

  lemma PutKeepsSettled(s: State, key: CounterKey, counter: Counter)
    requires KeysMatch(s)
    ensures forall x :: x != key.slot && SettledAt(s, x) ==> SettledAt(PutCounter(s, key, counter), x)
  {
    hide Pool, Target;
  }

  /** A fresh counter starts at its target. */
  lemma AddKeepsWhole(s: State, key: CounterKey, figure: Option<nat>, early: nat)
    requires Whole(s, early)
    ensures Whole(AddCounter(s, key, figure), early)
  {
    if key !in s.counters {
      hide Balanced, Accounted;
      PutKeepsBooks(s, key, FreshCounter(figure), early);
      assert SettledAt(s, key.slot);
    }
  }

  lemma PrepareKeepsWhole(s: State, slot: Slot, env: Env, early: nat)
    requires Whole(s, early)
    ensures Whole(PrepareCredit(s, slot, env), early)
  {
    assert KeysMatch(s);
    hide Whole, AddCounter;
    if !HasSale(s.lots, slot) {
      var figures := env.figures(slot);
      var first := AddCounter(s, CounterKey(slot, env.period, ByWeight), figures.byWeight);
      AddKeepsWhole(s, CounterKey(slot, env.period, ByWeight), figures.byWeight, early);
      AddKeepsWhole(first, CounterKey(slot, env.period, ByPiece), figures.byPiece, early);
    }
  }

  lemma PrepareKeepsRest(s: State, slot: Slot, env: Env)
    requires KeysMatch(s)
    ensures var t := PrepareCredit(s, slot, env);
      t.bags == s.bags && t.lots == s.lots && t.firstCredit == s.firstCredit && t.transfers == s.transfers
      && t.history == s.history && t.outbounds == s.outbounds
  {
  }

  /** A change of lots, bags, history and documents that keeps rooms and moved weight in step, books
  every gram, and raises the Sale weight of at most one slot. */
  lemma ChangeKeepsBooks(s: State, t: State, slot: Slot, early: nat, early': nat)
    requires Whole(s, early)
    requires t.keys == s.keys && t.counters == s.counters
    requires Sound(t.lots) && LotsMatchBags(t)
    requires forall x :: RoomOf(t.lots, x) + MovedOut(s.history, x) == RoomOf(s.lots, x) + MovedOut(t.history, x)
    requires forall x :: x != slot ==> Pool(t.lots, x, Sale) <= Pool(s.lots, x, Sale)
    requires InBags(t.bags) + Sum(Weights(t.lots)) + Disposed(t.history) + OnTheRoad(t.transfers) + Shipped(t.outbounds)
               + Received(s.bags) + early
          == InBags(s.bags) + Sum(Weights(s.lots)) + Disposed(s.history) + OnTheRoad(s.transfers) + Shipped(s.outbounds)
               + Received(t.bags) + early'
    ensures Pending(t, slot, early')
    ensures Pool(t.lots, slot, Sale) <= Pool(s.lots, slot, Sale) ==> Whole(t, early')
  {
    hide Sum, RoomOf, Pool, MovedOut, Disposed, OnTheRoad, Shipped, InBags, Received;
    forall x ensures Balanced(t, x) {
      assert Balanced(s, x);
      assert AppliedIn(t, x) == AppliedIn(s, x);
    }
    assert TotalApplied(t) == TotalApplied(s);
    forall x | x != slot || Pool(t.lots, slot, Sale) <= Pool(s.lots, slot, Sale) ensures SettledAt(t, x) {
      assert SettledAt(s, x);
    }
  }

  lemma MarkKeepsPending(s: State, slot: Slot, period: Period, early: nat)
    requires Pending(s, slot, early)
    ensures Pending(MarkCredit(s, slot, period), slot, early)
  {
    var t := MarkCredit(s, slot, period);
    assert AppliedElsewhere(t, slot) == AppliedElsewhere(s, slot);
    forall x ensures Balanced(t, x) {
      assert Balanced(s, x) && AppliedIn(t, x) == AppliedIn(s, x);
    }
    forall x | x != slot ensures SettledAt(t, x) {
      assert SettledAt(s, x);
    }
    assert TotalApplied(t) == TotalApplied(s);
  }

  /** Entries that record no disposal and no move out of Sale leave the books alone. */
  lemma HistoryKeepsWhole(s: State, e: Entry, early: nat)
    requires Whole(s, early)
    requires !LeavesSale(e.action) && e.action != CharityExport && e.action != CancelFinalize
    ensures Whole(s.(history := s.history + [e]), early)
  {
    var t := s.(history := s.history + [e]);
    EntryTotals(s.history, e);
    ChangeKeepsBooks(s, t, e.slot, early, early);
  }

  lemma EntryTotals(history: seq<Entry>, e: Entry)
    ensures Disposed(history + [e]) == Disposed(history) + if e.action == CharityExport || e.action == CancelFinalize then e.grams else 0
    ensures forall x :: MovedOut(history + [e], x) == MovedOut(history, x) + if e.slot == x && LeavesSale(e.action) then e.grams else 0
  {
    assert (history + [e])[..|history|] == history;
  }
}
