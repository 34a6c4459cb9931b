/** What the commands of the Sale pool do to lots, counters and history, told by their fields. */
module SaleMeaning {
  import opened Common
  import opened Quantities
  import opened Ordering
  import opened SaleLots
  import opened SaleSettlement
  import opened SalePool
  import opened SaleInvariants
  import opened SaleRuns

  // ---------------------------------------------------------------------------------------------
  // Weight of a slot
  // ---------------------------------------------------------------------------------------------

  function SaleIn(lots: seq<Lot>, slot: Slot): nat {
    Total(lots, (l: Lot) => if l.slot == slot then l.sale else 0)
  }

  function CharityIn(lots: seq<Lot>, slot: Slot): nat {
    Total(lots, (l: Lot) => if l.slot == slot then l.charity else 0)
  }

  function CancelIn(lots: seq<Lot>, slot: Slot): nat {
    Total(lots, (l: Lot) => if l.slot == slot then l.cancel else 0)
  }

  /** Everything ever credited to Sale. */
  function CreditedIn(lots: seq<Lot>, slot: Slot): nat {
    Total(lots, (l: Lot) => if l.slot == slot then l.credited else 0)
  }

  /** Everything sent to other stores. */
  function SentIn(lots: seq<Lot>, slot: Slot): nat {
    Total(lots, (l: Lot) => if l.slot == slot then l.out else 0)
  }

  lemma PoolsAre(lots: seq<Lot>, slot: Slot)
    ensures Pool(lots, slot, Sale) == SaleIn(lots, slot)
    ensures Pool(lots, slot, Charity) == CharityIn(lots, slot)
    ensures Pool(lots, slot, Cancel) == CancelIn(lots, slot)
  {
    TotalIsSum(lots, (l: Lot) => if l.slot == slot then l.sale else 0, Amounts(lots, slot, Sale));
    TotalIsSum(lots, (l: Lot) => if l.slot == slot then l.charity else 0, Amounts(lots, slot, Charity));
    TotalIsSum(lots, (l: Lot) => if l.slot == slot then l.cancel else 0, Amounts(lots, slot, Cancel));
  }

  /** Lots of which only the Sale weight may differ, and only in one slot. */
  ghost predicate OnlySale(a: seq<Lot>, b: seq<Lot>, slot: Slot) {
    |b| == |a| && forall i :: 0 <= i < |a| ==> b[i] == a[i].(sale := b[i].sale) && (a[i].slot != slot ==> b[i] == a[i])
  }

  lemma OnlySaleKeeps(a: seq<Lot>, b: seq<Lot>, slot: Slot)
    requires OnlySale(a, b, slot)
    ensures forall x :: CharityIn(b, x) == CharityIn(a, x) && CancelIn(b, x) == CancelIn(a, x)
                        && CreditedIn(b, x) == CreditedIn(a, x) && SentIn(b, x) == SentIn(a, x)
    ensures forall x :: x != slot ==> SaleIn(b, x) == SaleIn(a, x)
  {
    forall x
      ensures CharityIn(b, x) == CharityIn(a, x) && CancelIn(b, x) == CancelIn(a, x)
      ensures CreditedIn(b, x) == CreditedIn(a, x) && SentIn(b, x) == SentIn(a, x)
      ensures x != slot ==> SaleIn(b, x) == SaleIn(a, x)
    {
      TotalSame(b, (l: Lot) => if l.slot == x then l.charity else 0, a, (l: Lot) => if l.slot == x then l.charity else 0);
      TotalSame(b, (l: Lot) => if l.slot == x then l.cancel else 0, a, (l: Lot) => if l.slot == x then l.cancel else 0);
      TotalSame(b, (l: Lot) => if l.slot == x then l.credited else 0, a, (l: Lot) => if l.slot == x then l.credited else 0);
      TotalSame(b, (l: Lot) => if l.slot == x then l.out else 0, a, (l: Lot) => if l.slot == x then l.out else 0);
      if x != slot {
        TotalSame(b, (l: Lot) => if l.slot == x then l.sale else 0, a, (l: Lot) => if l.slot == x then l.sale else 0);
      }
    }
  }

  // ---------------------------------------------------------------------------------------------
  // Settlement
  // ---------------------------------------------------------------------------------------------

  function TargetOf(counters: Counters, slot: Slot): CounterKey -> nat {
    (k: CounterKey) => if k.slot == slot && k in counters then Max(0, counters[k].observed - counters[k].baseline) else 0
  }

  /** What sales of a slot are to be charged, by all its counters. */
  function TargetIn(s: State, slot: Slot): nat {
    Total(s.keys, TargetOf(s.counters, slot))
  }

  /** The counters but for what was applied, and that only in one slot. */
  ghost predicate OnlyApplied(a: Counters, b: Counters, slot: Slot) {
    && (forall k :: k in b <==> k in a)
    && (forall k :: k in a ==> b[k] == a[k].(applied := b[k].applied) && (k.slot != slot ==> b[k] == a[k]))
  }

  lemma SettledRows(s: State, slot: Slot)
    requires KeysMatch(s)
    ensures var t := Settle(s, slot);
      && t == s.(lots := t.lots, counters := t.counters)
      && OnlySale(s.lots, t.lots, slot) && OnlyApplied(s.counters, t.counters, slot)
  {
    hide Sum, KeysOf, FirstCome, LastCome;
    SlotKeysKnown(s, slot);
    var ks := SlotKeys(s, slot);
    var t := Settle(s, slot);
    SetAppliedAt(s.counters, ks, SettledApplied(s.counters, ks, PoolAfterReversal(s.lots, slot, s.counters, ks)));
    hide SettledApplied, SetApplied, PoolAfterReversal, SlotKeys;
    forall k | k in s.counters
      ensures t.counters[k] == s.counters[k].(applied := t.counters[k].applied) && (k.slot != slot ==> t.counters[k] == s.counters[k])
    {
      if k in ks {
        var i :| 0 <= i < |ks| && ks[i] == k;
      }
    }
  }

  /** Settling a slot moves weight between its Sale and what is applied to sales, until as much is applied
  as its counters ask for and its weight allows. */
  lemma SettledTotals(s: State, slot: Slot)
    requires KeysMatch(s) && Balanced(s, slot)
    ensures var t := Settle(s, slot);
      && SaleIn(t.lots, slot) + AppliedIn(t, slot) == SaleIn(s.lots, slot) + AppliedIn(s, slot)
      && AppliedIn(t, slot) == Min(TargetIn(s, slot), AppliedIn(s, slot) + SaleIn(s.lots, slot))
      && forall x :: x != slot ==> AppliedIn(t, x) == AppliedIn(s, x)
  {
    hide Known, CanReverse, Settle, Pool, AppliedIn, TargetIn, SaleIn, KeysMatch, Balanced, SlotKeys, OnlySale;
    var t := Settle(s, slot);
    SettledSums(s, slot);
    SettledRows(s, slot);
    TargetIsSum(s, slot);
    PoolsAre(s.lots, slot);
    PoolsAre(t.lots, slot);
    SameKeysElsewhere(s, t, slot);
  }

  lemma SettledSums(s: State, slot: Slot)
    requires KeysMatch(s) && Balanced(s, slot)
    ensures forall k :: k in SlotKeys(s, slot) ==> k in s.counters
    ensures var t := Settle(s, slot);
      && Pool(t.lots, slot, Sale) + AppliedIn(t, slot) == Pool(s.lots, slot, Sale) + AppliedIn(s, slot)
      && AppliedIn(t, slot) == Min(Sum(Targets(s.counters, SlotKeys(s, slot))), AppliedIn(s, slot) + Pool(s.lots, slot, Sale))
  {
    hide Known, CanReverse, SettledLots, SettledCounters, Settle, SlotKeys, Pool, AppliedIn, Balanced, KeysMatch, Targets, Applieds, Sum;
    var ks, t := SlotKeys(s, slot), Settle(s, slot);
    SettleIs(s, slot);
    SlotKeysKnown(s, slot);
    ReversalFits(s, slot);
    AppliedInIsSum(s, slot);
    AppliedInIsSum(t, slot);
    SettlementTotals(s.lots, slot, s.counters, ks);
  }

  lemma SettleIs(s: State, slot: Slot)
    requires KeysMatch(s)
    ensures forall k :: k in SlotKeys(s, slot) ==> k in s.counters
    ensures var ks, t := SlotKeys(s, slot), Settle(s, slot);
      SlotKeys(t, slot) == ks && t.lots == SettledLots(s.lots, slot, s.counters, ks) && t.counters == SettledCounters(s.lots, slot, s.counters, ks)
  {
    SlotKeysKnown(s, slot);
    hide SettledLots, SettledCounters, KeysOf;
  }

  lemma SameKeysElsewhere(s: State, t: State, slot: Slot)
    requires t.keys == s.keys && OnlyApplied(s.counters, t.counters, slot)
    ensures forall x :: x != slot ==> AppliedIn(t, x) == AppliedIn(s, x)
  {
    hide AppliedIn, AppliedElsewhere;
    SameElsewhere(s, t, slot);
  }

  /** The keys of a slot in their order say the same as all keys of which only the slot's count. */
  lemma KeysTotal(s: State, slot: Slot, f: CounterKey -> nat)
    requires forall k :: k in s.keys && k.slot != slot ==> f(k) == 0
    ensures Total(SlotKeys(s, slot), f) == Total(s.keys, f)
  {
    var mine := (k: CounterKey) => k.slot == slot;
    TotalOfFilter(s.keys, mine, f, f);
    SortPermutes(Filter(s.keys, mine), KeyOrder);
    hide KeyOrder;
    TotalPermute(SlotKeys(s, slot), Filter(s.keys, mine), f);
  }

  lemma TargetIsSum(s: State, slot: Slot)
    requires KeysMatch(s)
    ensures forall k :: k in SlotKeys(s, slot) ==> k in s.counters
    ensures TargetIn(s, slot) == Sum(Targets(s.counters, SlotKeys(s, slot)))
  {
    SlotKeysKnown(s, slot);
    hide SlotKeys, Known, KeysMatch;
    KeysTotal(s, slot, TargetOf(s.counters, slot));
    TotalIsSum(SlotKeys(s, slot), TargetOf(s.counters, slot), Targets(s.counters, SlotKeys(s, slot)));
  }

  // ---------------------------------------------------------------------------------------------
  // Crediting
  // ---------------------------------------------------------------------------------------------

  function FigureFor(env: Env, slot: Slot, kind: SaleKind): Option<nat> {
    if kind == ByWeight then env.figures(slot).byWeight else env.figures(slot).byPiece
  }

  /** A credit keeps what counters follow, and applies sales of its own slot only.  A slot without Sale
  weight gets the two counters of the month that it lacks: they start at the figure on record, or wait
  for the first report when there is none. */
  ghost predicate CountersCredited(before: State, after: State, slot: Slot, env: Env) {
    && (forall k :: k in after.counters <==>
          k in before.counters || (SaleIn(before.lots, slot) == 0 && k.slot == slot && k.period == env.period))
    && (forall k :: k in before.counters ==>
          && after.counters[k] == before.counters[k].(applied := after.counters[k].applied)
          && (k.slot != slot ==> after.counters[k] == before.counters[k]))
    && (forall k :: k in after.counters && k !in before.counters ==>
          match FigureFor(env, slot, k.kind)
          case Some(v) => after.counters[k].baseline == after.counters[k].observed == v && !after.counters[k].pending
          case None => after.counters[k].baseline == after.counters[k].observed == 0 && after.counters[k].pending)
  }

  ghost predicate FirstCredited(before: State, after: State, slot: Slot, period: Period) {
    after.firstCredit == if slot in before.firstCredit then before.firstCredit else before.firstCredit[slot := period]
  }

  lemma SaleIsThere(lots: seq<Lot>, slot: Slot)
    ensures HasSale(lots, slot) <==> SaleIn(lots, slot) > 0
  {
    var f := (l: Lot) => if l.slot == slot then l.sale else 0;
    TotalZero(lots, f);
    if HasSale(lots, slot) {
      var lot :| lot in lots && lot.slot == slot && lot.sale > 0;
      var i :| 0 <= i < |lots| && lots[i] == lot;
      assert f(lots[i]) > 0;
    }
  }

  lemma AddedCounter(s: State, key: CounterKey, figure: Option<nat>)
    requires KeysMatch(s)
    ensures var t := AddCounter(s, key, figure);
      && (forall k :: k in t.counters <==> k in s.counters || k == key)
      && (forall k :: k in s.counters ==> t.counters[k] == s.counters[k])
      && (key !in s.counters ==> t.counters[key] == FreshCounter(figure))
      && (forall x :: AppliedIn(t, x) == AppliedIn(s, x))
      && t == s.(keys := t.keys, counters := t.counters)
  {
    hide AppliedIn;
    if key !in s.counters { PutKeepsSums(s, key, FreshCounter(figure)); }
  }

  lemma KindsAre(slot: Slot, period: Period)
    ensures forall k: CounterKey :: k.slot == slot && k.period == period ==>
      k == CounterKey(slot, period, ByWeight) || k == CounterKey(slot, period, ByPiece)
  {
    forall k: CounterKey | k.slot == slot && k.period == period
      ensures k == CounterKey(slot, period, ByWeight) || k == CounterKey(slot, period, ByPiece)
    {
      match k.kind {
        case ByWeight =>
        case ByPiece =>
      }
    }
  }

  lemma BaselineCounters(s: State, slot: Slot, env: Env)
    requires KeysMatch(s)
    ensures var t := InitializeBaseline(s, slot, env);
      && t == s.(keys := t.keys, counters := t.counters)
      && (forall k :: k in t.counters <==> k in s.counters || (k.slot == slot && k.period == env.period))
      && (forall k :: k in s.counters ==> t.counters[k] == s.counters[k])
      && (forall k :: k in t.counters && k !in s.counters ==> t.counters[k] == FreshCounter(FigureFor(env, slot, k.kind)))
      && (forall x :: AppliedIn(t, x) == AppliedIn(s, x))
  {
    var figures := env.figures(slot);
    var byWeight, byPiece := CounterKey(slot, env.period, ByWeight), CounterKey(slot, env.period, ByPiece);
    var first := AddCounter(s, byWeight, figures.byWeight);
    AddedCounter(s, byWeight, figures.byWeight);
    AddedCounter(first, byPiece, figures.byPiece);
    KindsAre(slot, env.period);
    hide AddCounter, AppliedIn, KeysMatch, FreshCounter;
  }

  lemma FreshIs(figure: Option<nat>)
    ensures var c := FreshCounter(figure); match figure
      case Some(v) => c.baseline == c.observed == v && !c.pending
      case None => c.baseline == c.observed == 0 && c.pending
  {
  }

  lemma PreparedCounters(s: State, slot: Slot, env: Env)
    requires KeysMatch(s)
    ensures var t := PrepareCredit(s, slot, env);
      && CountersCredited(s, t, slot, env) && t == s.(keys := t.keys, counters := t.counters)
      && forall x :: AppliedIn(t, x) == AppliedIn(s, x)
  {
    SaleIsThere(s.lots, slot);
    BaselineCounters(s, slot, env);
    hide InitializeBaseline, HasSale, SaleIn, AppliedIn, KeysMatch, FreshCounter, FigureFor;
    var t := PrepareCredit(s, slot, env);
    forall k | k in t.counters && k !in s.counters { FreshIs(FigureFor(env, slot, k.kind)); }
  }

  lemma CountersSettled(before: State, prepared: State, mid: State, after: State, slot: Slot, env: Env)
    requires CountersCredited(before, prepared, slot, env) && prepared.counters == mid.counters
    requires OnlyApplied(mid.counters, after.counters, slot)
    ensures CountersCredited(before, after, slot, env)
  {
    hide SaleIn;
  }

  lemma PendingParts(s: State, slot: Slot, early: nat)
    requires Pending(s, slot, early)
    ensures KeysMatch(s) && Balanced(s, slot)
  {
  }

  lemma SameApplied(s: State, t: State)
    requires t.keys == s.keys && t.counters == s.counters
    ensures forall x :: AppliedIn(t, x) == AppliedIn(s, x)
  {
  }

  lemma CreditTotals(changed: State, slot: Slot, period: Period, early: nat)
    requires Pending(changed, slot, early)
    ensures KeysMatch(changed) && KeysMatch(MarkCredit(changed, slot, period))
    ensures var t := Settle(MarkCredit(changed, slot, period), slot);
      && OnlySale(changed.lots, t.lots, slot) && OnlyApplied(changed.counters, t.counters, slot)
      && t == changed.(lots := t.lots, counters := t.counters, firstCredit := MarkCredit(changed, slot, period).firstCredit)
      && forall x :: SaleIn(t.lots, x) + AppliedIn(t, x) == SaleIn(changed.lots, x) + AppliedIn(changed, x)
  {
    hide Pending, Balanced, Settle, SaleIn, KeysMatch, TargetIn, AppliedIn, OnlySale, OnlyApplied;
    var marked := MarkCredit(changed, slot, period);
    PendingParts(changed, slot, early);
    MarkKeepsPending(changed, slot, period, early);
    PendingParts(marked, slot, early);
    SettledRows(marked, slot);
    SettledTotals(marked, slot);
    SameApplied(changed, marked);
    OnlySaleKeeps(changed.lots, Settle(marked, slot).lots, slot);
  }

  /** Crediting a slot changes nothing but its Sale weight, what is applied to its counters, and the counters
  and the month that its first credit needs. */
  lemma CreditIs(s: State, changed: State, slot: Slot, env: Env, early: nat)
    requires KeysMatch(s) && Pending(changed, slot, early)
    requires var prepared := PrepareCredit(s, slot, env);
      changed.keys == prepared.keys && changed.counters == prepared.counters && changed.firstCredit == s.firstCredit
    ensures KeysMatch(changed) && KeysMatch(MarkCredit(changed, slot, env.period))
    ensures var t := Settle(MarkCredit(changed, slot, env.period), slot);
      && t == changed.(lots := t.lots, counters := t.counters, firstCredit := t.firstCredit)
      && OnlySale(changed.lots, t.lots, slot) && CountersCredited(s, t, slot, env) && FirstCredited(s, t, slot, env.period)
      && forall x :: SaleIn(t.lots, x) + AppliedIn(t, x) == SaleIn(changed.lots, x) + AppliedIn(s, x)
  {
    hide Pending, Settle, PrepareCredit, SaleIn, KeysMatch, AppliedIn, OnlySale, OnlyApplied, CountersCredited;
    var prepared := PrepareCredit(s, slot, env);
    PreparedCounters(s, slot, env);
    CreditTotals(changed, slot, env.period, early);
    SameApplied(prepared, changed);
    CountersSettled(s, prepared, changed, Settle(MarkCredit(changed, slot, env.period), slot), slot, env);
  }

  // ---------------------------------------------------------------------------------------------
  // Sorting
  // ---------------------------------------------------------------------------------------------

  /** A slot gains what is sorted in the bucket it is sorted into, Sale weight as credited; lots of other bags
  and of transfers gain nothing. */
  ghost predicate LotsSorted(before: seq<Lot>, after: seq<Lot>, slot: Slot, bag: nat, field: Field, g: nat) {
    && |before| <= |after| <= |before| + 1
    && (forall i :: 0 <= i < |before| && before[i].source != FromBag(bag) ==> after[i] == before[i].(sale := after[i].sale))
    && (forall i :: |before| <= i < |after| ==> after[i].source == FromBag(bag))
    && (forall x ::
          && CharityIn(after, x) == CharityIn(before, x) + (if x == slot && field == Charity then g else 0)
          && CancelIn(after, x) == CancelIn(before, x) + (if x == slot && field == Cancel then g else 0)
          && CreditedIn(after, x) == CreditedIn(before, x) + (if x == slot && field == Sale then g else 0)
          && SentIn(after, x) == SentIn(before, x))
  }

  /** The bag gives `g` grams to its own lot: to Charity, to Cancel, or to Sale, where they are credited. */
  ghost predicate SortedInto(before: State, after: State, bag: nat, field: Field, g: nat, env: Env) {
    && bag < |before.bags| && var b := before.bags[bag];
    && 0 < g <= b.remaining && b.status != Emptied
    && after == before.(bags := after.bags, lots := after.lots, keys := after.keys, counters := after.counters,
                        firstCredit := after.firstCredit, history := after.history)
    && after.bags == before.bags[bag := b.(remaining := b.remaining - g, status := if g == b.remaining then Emptied else Opened,
                                           version := b.version + 1)]
    && after.history == before.history
         + [Entry(b.slot, if field == Sale then SortSale else if field == Charity then SortCharity else SortCancel, g)]
    && LotsSorted(before.lots, after.lots, b.slot, bag, field, g)
    && (forall x :: SaleIn(after.lots, x) + AppliedIn(after, x)
                 == SaleIn(before.lots, x) + AppliedIn(before, x) + (if x == b.slot && field == Sale then g else 0))
    && if field == Sale
       then CountersCredited(before, after, b.slot, env) && FirstCredited(before, after, b.slot, env.period)
       else after.counters == before.counters && after.keys == before.keys && after.firstCredit == before.firstCredit
  }

  lemma LotGained(lots: seq<Lot>, i: nat, lot: Lot)
    requires i < |lots| && lot.slot == lots[i].slot
    ensures var t := lots[i := lot]; forall x ::
      && CharityIn(t, x) == CharityIn(lots, x) + (if x == lot.slot then lot.charity - lots[i].charity else 0)
      && CancelIn(t, x) == CancelIn(lots, x) + (if x == lot.slot then lot.cancel - lots[i].cancel else 0)
      && CreditedIn(t, x) == CreditedIn(lots, x) + (if x == lot.slot then lot.credited - lots[i].credited else 0)
      && SentIn(t, x) == SentIn(lots, x) + (if x == lot.slot then lot.out - lots[i].out else 0)
      && SaleIn(t, x) == SaleIn(lots, x) + (if x == lot.slot then lot.sale - lots[i].sale else 0)
  {
    hide Total;
    forall x
      ensures CharityIn(lots[i := lot], x) == CharityIn(lots, x) + (if x == lot.slot then lot.charity - lots[i].charity else 0)
      ensures CancelIn(lots[i := lot], x) == CancelIn(lots, x) + (if x == lot.slot then lot.cancel - lots[i].cancel else 0)
      ensures CreditedIn(lots[i := lot], x) == CreditedIn(lots, x) + (if x == lot.slot then lot.credited - lots[i].credited else 0)
      ensures SentIn(lots[i := lot], x) == SentIn(lots, x) + (if x == lot.slot then lot.out - lots[i].out else 0)
      ensures SaleIn(lots[i := lot], x) == SaleIn(lots, x) + (if x == lot.slot then lot.sale - lots[i].sale else 0)
    {
      TotalSet(lots, i, lot, (l: Lot) => if l.slot == x then l.charity else 0);
      TotalSet(lots, i, lot, (l: Lot) => if l.slot == x then l.cancel else 0);
      TotalSet(lots, i, lot, (l: Lot) => if l.slot == x then l.credited else 0);
      TotalSet(lots, i, lot, (l: Lot) => if l.slot == x then l.out else 0);
      TotalSet(lots, i, lot, (l: Lot) => if l.slot == x then l.sale else 0);
    }
  }

  lemma LotJoined(lots: seq<Lot>, lot: Lot)
    ensures var t := lots + [lot]; forall x ::
      && CharityIn(t, x) == CharityIn(lots, x) + (if x == lot.slot then lot.charity else 0)
      && CancelIn(t, x) == CancelIn(lots, x) + (if x == lot.slot then lot.cancel else 0)
      && CreditedIn(t, x) == CreditedIn(lots, x) + (if x == lot.slot then lot.credited else 0)
      && SentIn(t, x) == SentIn(lots, x) + (if x == lot.slot then lot.out else 0)
      && SaleIn(t, x) == SaleIn(lots, x) + (if x == lot.slot then lot.sale else 0)
  {
    hide Total;
    forall x
      ensures CharityIn(lots + [lot], x) == CharityIn(lots, x) + (if x == lot.slot then lot.charity else 0)
      ensures CancelIn(lots + [lot], x) == CancelIn(lots, x) + (if x == lot.slot then lot.cancel else 0)
      ensures CreditedIn(lots + [lot], x) == CreditedIn(lots, x) + (if x == lot.slot then lot.credited else 0)
      ensures SentIn(lots + [lot], x) == SentIn(lots, x) + (if x == lot.slot then lot.out else 0)
      ensures SaleIn(lots + [lot], x) == SaleIn(lots, x) + (if x == lot.slot then lot.sale else 0)
    {
      TotalPush(lots, lot, (l: Lot) => if l.slot == x then l.charity else 0);
      TotalPush(lots, lot, (l: Lot) => if l.slot == x then l.cancel else 0);
      TotalPush(lots, lot, (l: Lot) => if l.slot == x then l.credited else 0);
      TotalPush(lots, lot, (l: Lot) => if l.slot == x then l.out else 0);
      TotalPush(lots, lot, (l: Lot) => if l.slot == x then l.sale else 0);
    }
  }

  lemma LotGiven(s: State, bag: nat, field: Field, g: nat)
    requires LotsMatchBags(s) && bag < |s.bags|
    ensures var slot := s.bags[bag].slot; var t := AddToLot(s.lots, slot, bag, field, g);
      && LotsSorted(s.lots, t, slot, bag, field, g)
      && forall x :: SaleIn(t, x) == SaleIn(s.lots, x) + (if x == slot && field == Sale then g else 0)
  {
    hide CharityIn, CancelIn, CreditedIn, SentIn, SaleIn, BagLot;
    var slot := s.bags[bag].slot;
    var i := BagLot(s.lots, bag);
    if i < |s.lots| {
      assert s.lots[i] in s.lots;
      LotGained(s.lots, i, Give(s.lots[i].(slot := slot), Into(field), g));
    } else {
      LotJoined(s.lots, Give(EmptyLot(slot, FromBag(bag)), Into(field), g));
    }
  }

  lemma SortedThenSold(before: seq<Lot>, mid: seq<Lot>, after: seq<Lot>, slot: Slot, bag: nat, field: Field, g: nat)
    requires LotsSorted(before, mid, slot, bag, field, g) && OnlySale(mid, after, slot)
    ensures LotsSorted(before, after, slot, bag, field, g)
  {
    hide CharityIn, CancelIn, CreditedIn, SentIn, SaleIn;
    OnlySaleKeeps(mid, after, slot);
  }

  lemma SortedSale(s: State, sorted: State, credited: State, t: State, bag: nat, g: nat, env: Env)
    requires bag < |s.bags| && 0 < g <= s.bags[bag].remaining && s.bags[bag].status != Emptied
    requires sorted == s.(bags := s.bags[bag := OpenBag(s.bags[bag], g)], lots := sorted.lots, keys := sorted.keys, counters := sorted.counters)
    requires credited == sorted.(lots := credited.lots, counters := credited.counters, firstCredit := credited.firstCredit)
    requires t == credited.(history := credited.history + [Entry(s.bags[bag].slot, SortSale, g)])
    requires LotsSorted(s.lots, sorted.lots, s.bags[bag].slot, bag, Sale, g) && OnlySale(sorted.lots, credited.lots, s.bags[bag].slot)
    requires forall x :: SaleIn(sorted.lots, x) == SaleIn(s.lots, x) + (if x == s.bags[bag].slot then g else 0)
    requires forall x :: SaleIn(credited.lots, x) + AppliedIn(credited, x) == SaleIn(sorted.lots, x) + AppliedIn(s, x)
    requires CountersCredited(s, credited, s.bags[bag].slot, env) && FirstCredited(s, credited, s.bags[bag].slot, env.period)
    ensures SortedInto(s, t, bag, Sale, g, env)
  {
    hide LotsSorted, OnlySale, SaleIn, AppliedIn, CountersCredited, FirstCredited;
    SortedThenSold(s.lots, sorted.lots, credited.lots, s.bags[bag].slot, bag, Sale, g);
    CountersHistory(s, credited, t, s.bags[bag].slot, env);
  }

  lemma SortSaleMeans(s: State, bag: nat, g: nat, env: Env)
    requires Inv(s) && bag < |s.bags| && 0 < g <= s.bags[bag].remaining && s.bags[bag].status != Emptied
    ensures KeysMatch(s) && var slot := s.bags[bag].slot;
      var sorted := PrepareCredit(s, slot, env).(bags := s.bags[bag := OpenBag(s.bags[bag], g)], lots := AddToLot(s.lots, slot, bag, Sale, g));
      KeysMatch(MarkCredit(sorted, slot, env.period)) &&
      var credited := Settle(MarkCredit(sorted, slot, env.period), slot);
      SortedInto(s, credited.(history := credited.history + [Entry(slot, SortSale, g)]), bag, Sale, g, env)
  {
    assert KeysMatch(s) && LotsMatchBags(s);
    LotGiven(s, bag, Sale, g);
    SortIsPending(s, bag, g, env);
    hide Inv, AddToLot, LotsSorted, SaleIn, AppliedIn, LotsMatchBags, CountersCredited, FirstCredited, Pending, OnlySale,
         PrepareCredit, SortedInto, Settle, OpenBag, MarkCredit, KeysMatch;
    var slot := s.bags[bag].slot;
    var sorted := PrepareCredit(s, slot, env).(bags := s.bags[bag := OpenBag(s.bags[bag], g)], lots := AddToLot(s.lots, slot, bag, Sale, g));
    PreparedCounters(s, slot, env);
    CreditIs(s, sorted, slot, env, 0);
    var credited := Settle(MarkCredit(sorted, slot, env.period), slot);
    SortedSale(s, sorted, credited, credited.(history := credited.history + [Entry(slot, SortSale, g)]), bag, g, env);
  }

  lemma SortMeans(s: State, bag: nat, expectedVersion: nat, field: Field, g: nat, env: Env)
    requires Inv(s) && SortBag(s, bag, expectedVersion, field, g, env).Done?
    ensures SortedInto(s, SortBag(s, bag, expectedVersion, field, g, env).state, bag, field, g, env)
  {
    if field == Sale {
      SortSaleMeans(s, bag, g, env);
      hide SortedInto, Inv, Settle, PrepareCredit, MarkCredit, KeysMatch, AddToLot;
    } else {
      assert LotsMatchBags(s);
      LotGiven(s, bag, field, g);
      hide Inv, AddToLot, LotsSorted, SaleIn, AppliedIn, KeysMatch, LotsMatchBags;
      SameApplied(s, SortBag(s, bag, expectedVersion, field, g, env).state);
    }
  }

  lemma CountersHistory(before: State, credited: State, after: State, slot: Slot, env: Env)
    requires after == credited.(history := after.history)
    requires CountersCredited(before, credited, slot, env) && FirstCredited(before, credited, slot, env.period)
    ensures CountersCredited(before, after, slot, env) && FirstCredited(before, after, slot, env.period)
    ensures forall x :: AppliedIn(after, x) == AppliedIn(credited, x)
  {
    hide SaleIn;
  }

  // ---------------------------------------------------------------------------------------------
  // Moving between buckets
  // ---------------------------------------------------------------------------------------------

  /** What a move takes from and gives to a bucket, by its name in the history. */
  function CharityChange(action: Action, g: nat): int {
    if action == CharityToSale || action == CharityExport then 0 - g else if action == SaleToCharity then g else 0
  }

  function CancelChange(action: Action, g: nat): int {
    if action == CancelToSale || action == CancelFinalize then 0 - g else if action == SaleToCancel then g else 0
  }

  function SaleChange(action: Action, g: nat): int {
    if action == SaleToCharity || action == SaleToCancel then 0 - g else if action == CharityToSale || action == CancelToSale then g else 0
  }

  /** No lot gives while an older one of the slot holds something in the bucket; lots of other slots stay. */
  ghost predicate OldestMoved(before: seq<Lot>, after: seq<Lot>, slot: Slot) {
    && |after| == |before|
    && (forall i :: 0 <= i < |before| ==> after[i].slot == before[i].slot && after[i].source == before[i].source)
    && (forall i :: 0 <= i < |before| && before[i].slot != slot ==> after[i] == before[i])
    && (forall i, j :: 0 <= i < j < |before| && before[i].slot == slot ==>
          && (after[j].charity < before[j].charity ==> after[i].charity == 0)
          && (after[j].cancel < before[j].cancel ==> after[i].cancel == 0))
  }

  /** The slot moves `g` grams as the action says, and what enters Sale is credited. */
  ghost predicate GramsMoved(before: seq<Lot>, after: seq<Lot>, slot: Slot, action: Action, g: nat) {
    forall x ::
      && CharityIn(after, x) == CharityIn(before, x) + (if x == slot then CharityChange(action, g) else 0)
      && CancelIn(after, x) == CancelIn(before, x) + (if x == slot then CancelChange(action, g) else 0)
      && CreditedIn(after, x) == CreditedIn(before, x) + (if x == slot then Max(0, SaleChange(action, g)) else 0)
      && SentIn(after, x) == SentIn(before, x)
  }

  lemma FieldRises(lots: seq<Lot>, after: seq<Lot>, t: seq<nat>, f: Lot -> nat)
    requires |after| == |lots| == |t| && forall i :: 0 <= i < |t| ==> f(after[i]) == f(lots[i]) + t[i]
    ensures Total(after, f) == Total(lots, f) + Sum(t)
  {
    TotalPlus(lots, f, t, (n: nat) => n, after, f);
    TotalIsSum(t, (n: nat) => n, t);
  }

  /** A measure of the lots of slot `x` that each lot raises or lowers by what it gives. */
  lemma DrainedField(lots: seq<Lot>, slot: Slot, from: Field, to: Dest, g: nat, x: Slot, f: Lot -> nat, up: bool, down: bool)
    requires to != Into(from) && g <= Pool(lots, slot, from) && !(up && down)
    requires forall l, n: nat :: n <= Weight(l, from) ==>
      f(Move(l, from, to, n)) == f(l) + (if up && l.slot == x then n else 0) - (if down && l.slot == x then n else 0)
    ensures Total(Drain(lots, slot, from, to, g), f) == Total(lots, f) + (if up && x == slot then g else 0) - (if down && x == slot then g else 0)
  {
    hide FirstCome, Sum, Amounts, Pool, Move, Weight;
    DrainFrom(lots, slot, from, to, g);
    var after, t := Drain(lots, slot, from, to, g), Taken(lots, slot, from, g);
    hide Drain, Taken;
    forall i | 0 <= i < |lots|
      ensures f(after[i]) == f(lots[i]) + (if up && x == slot then t[i] else 0) - (if down && x == slot then t[i] else 0)
    {
      DrainAt(lots, slot, from, to, g, i);
    }
    if up && x == slot {
      FieldRises(lots, after, t, f);
    } else if down && x == slot {
      FieldRises(after, lots, t, f);
    } else {
      TotalSame(after, f, lots, f);
    }
  }

  lemma DrainedSale(lots: seq<Lot>, slot: Slot, from: Field, to: Dest, g: nat, x: Slot)
    requires to != Into(from) && g <= Pool(lots, slot, from)
    ensures SaleIn(Drain(lots, slot, from, to, g), x) == SaleIn(lots, x) + (if x == slot && to == Into(Sale) then g else 0) - (if x == slot && from == Sale then g else 0)
  {
    hide Drain, Pool, Total;
    DrainedField(lots, slot, from, to, g, x, (l: Lot) => if l.slot == x then l.sale else 0, to == Into(Sale), from == Sale);
  }

  lemma DrainedCharity(lots: seq<Lot>, slot: Slot, from: Field, to: Dest, g: nat, x: Slot)
    requires to != Into(from) && g <= Pool(lots, slot, from)
    ensures CharityIn(Drain(lots, slot, from, to, g), x) == CharityIn(lots, x) + (if x == slot && to == Into(Charity) then g else 0) - (if x == slot && from == Charity then g else 0)
  {
    hide Drain, Pool, Total;
    DrainedField(lots, slot, from, to, g, x, (l: Lot) => if l.slot == x then l.charity else 0, to == Into(Charity), from == Charity);
  }

  lemma DrainedCancel(lots: seq<Lot>, slot: Slot, from: Field, to: Dest, g: nat, x: Slot)
    requires to != Into(from) && g <= Pool(lots, slot, from)
    ensures CancelIn(Drain(lots, slot, from, to, g), x) == CancelIn(lots, x) + (if x == slot && to == Into(Cancel) then g else 0) - (if x == slot && from == Cancel then g else 0)
  {
    hide Drain, Pool, Total;
    DrainedField(lots, slot, from, to, g, x, (l: Lot) => if l.slot == x then l.cancel else 0, to == Into(Cancel), from == Cancel);
  }

  lemma DrainedCredits(lots: seq<Lot>, slot: Slot, from: Field, to: Dest, g: nat, x: Slot)
    requires to != Into(from) && g <= Pool(lots, slot, from)
    ensures CreditedIn(Drain(lots, slot, from, to, g), x) == CreditedIn(lots, x) + (if x == slot && to == Into(Sale) then g else 0)
  {
    hide Drain, Pool, Total;
    DrainedField(lots, slot, from, to, g, x, (l: Lot) => if l.slot == x then l.credited else 0, to == Into(Sale), false);
  }

  lemma DrainedOut(lots: seq<Lot>, slot: Slot, from: Field, to: Dest, g: nat, x: Slot)
    requires to != Into(from) && g <= Pool(lots, slot, from)
    ensures SentIn(Drain(lots, slot, from, to, g), x) == SentIn(lots, x) + (if x == slot && to == Transferred then g else 0)
  {
    hide Drain, Pool, Total;
    DrainedField(lots, slot, from, to, g, x, (l: Lot) => if l.slot == x then l.out else 0, to == Transferred, false);
  }

  /** Oldest lots first. */
  lemma OldestGiveFirst(lots: seq<Lot>, slot: Slot, from: Field, to: Dest, g: nat, i: nat, j: nat)
    requires i < j < |lots| && lots[i].slot == slot && to != Into(from)
    ensures var after := Drain(lots, slot, from, to, g);
      Weight(after[j], from) < Weight(lots[j], from) ==> Weight(after[i], from) == 0
  {
    hide FirstCome;
    if FirstCome(Amounts(lots, slot, from), g)[j] > 0 { FirstComeInOrder(Amounts(lots, slot, from), g, i, j); }
  }

  lemma MovedTotals(lots: seq<Lot>, slot: Slot, move: BucketMove, g: nat)
    requires move in BUCKET_MOVES && g <= Pool(lots, slot, move.from)
    ensures var after := Drain(lots, slot, move.from, move.to, g);
      && GramsMoved(lots, after, slot, move.action, g)
      && forall x :: SaleIn(after, x) == SaleIn(lots, x) + (if x == slot then SaleChange(move.action, g) else 0)
  {
    hide Drain, Pool, SaleIn, CharityIn, CancelIn, CreditedIn, SentIn;
    var after := Drain(lots, slot, move.from, move.to, g);
    forall x
      ensures CharityIn(after, x) == CharityIn(lots, x) + (if x == slot then CharityChange(move.action, g) else 0)
      ensures CancelIn(after, x) == CancelIn(lots, x) + (if x == slot then CancelChange(move.action, g) else 0)
      ensures CreditedIn(after, x) == CreditedIn(lots, x) + (if x == slot then Max(0, SaleChange(move.action, g)) else 0)
      ensures SaleIn(after, x) == SaleIn(lots, x) + (if x == slot then SaleChange(move.action, g) else 0)
      ensures SentIn(after, x) == SentIn(lots, x)
    {
      DrainedSale(lots, slot, move.from, move.to, g, x);
      DrainedCharity(lots, slot, move.from, move.to, g, x);
      DrainedCancel(lots, slot, move.from, move.to, g, x);
      DrainedCredits(lots, slot, move.from, move.to, g, x);
      DrainedOut(lots, slot, move.from, move.to, g, x);
    }
  }

  /** No lot gives Sale weight while an older one of the slot holds some. */
  ghost predicate OldestSold(before: seq<Lot>, after: seq<Lot>, slot: Slot)
    requires |after| == |before|
  {
    forall i, j :: 0 <= i < j < |before| && before[i].slot == slot && after[j].sale < before[j].sale ==> after[i].sale == 0
  }

  lemma MovedRows(lots: seq<Lot>, slot: Slot, from: Field, to: Dest, g: nat)
    requires to != Into(from)
    ensures OldestMoved(lots, Drain(lots, slot, from, to, g), slot)
    ensures from == Sale ==> OldestSold(lots, Drain(lots, slot, from, to, g), slot)
  {
    hide FirstCome, Amounts, Drain;
    var after := Drain(lots, slot, from, to, g);
    forall i | 0 <= i < |lots|
      ensures after[i].slot == lots[i].slot && after[i].source == lots[i].source && (lots[i].slot != slot ==> after[i] == lots[i])
      ensures from != Charity ==> after[i].charity >= lots[i].charity
      ensures from != Cancel ==> after[i].cancel >= lots[i].cancel
    {
      DrainAt(lots, slot, from, to, g, i);
    }
    hide Taken;
    forall i, j | 0 <= i < j < |lots| && lots[i].slot == slot
      ensures Weight(after[j], from) < Weight(lots[j], from) ==> Weight(after[i], from) == 0
    {
      OldestGiveFirst(lots, slot, from, to, g, i, j);
    }
  }

  /** What a move does: the grams and the lots, the history, and for what enters Sale its credit. */
  ghost predicate MovedAs(before: State, after: State, slot: Slot, action: Action, g: nat, env: Env) {
    && g > 0
    && after == before.(lots := after.lots, keys := after.keys, counters := after.counters, firstCredit := after.firstCredit,
                        history := after.history)
    && OldestMoved(before.lots, after.lots, slot) && GramsMoved(before.lots, after.lots, slot, action, g)
    && (forall x :: SaleIn(after.lots, x) + AppliedIn(after, x)
                 == SaleIn(before.lots, x) + AppliedIn(before, x) + (if x == slot then SaleChange(action, g) else 0))
    && Noted(before.history, after.history, slot, action, g)
    && if SaleChange(action, g) > 0
       then CountersCredited(before, after, slot, env) && FirstCredited(before, after, slot, env.period)
       else after.counters == before.counters && after.keys == before.keys && after.firstCredit == before.firstCredit
  }

  /** The history gained entries of this slot and action, worth `g` grams, none of them empty. */
  ghost predicate Noted(before: seq<Entry>, after: seq<Entry>, slot: Slot, action: Action, g: nat) {
    && before <= after
    && (forall i :: |before| <= i < |after| ==> after[i].slot == slot && after[i].action == action && after[i].grams > 0)
    && Total(after[|before|..], (e: Entry) => e.grams) == g
  }

  lemma {:induction false} EntriesAre(slot: Slot, action: Action, t: seq<nat>)
    ensures forall e :: e in Entries(slot, action, t) ==> e.slot == slot && e.action == action && e.grams > 0
    ensures Total(Entries(slot, action, t), (e: Entry) => e.grams) == Sum(t)
  {
    if |t| > 0 {
      var front, n := Entries(slot, action, t[..|t| - 1]), t[|t| - 1];
      EntriesAre(slot, action, t[..|t| - 1]);
      if n > 0 {
        TotalPush(front, Entry(slot, action, n), (e: Entry) => e.grams);
      } else {
        assert Entries(slot, action, t) == front;
      }
    }
  }

  lemma EntriesNoted(history: seq<Entry>, slot: Slot, action: Action, t: seq<nat>, g: nat)
    requires Sum(t) == g
    ensures Noted(history, history + Entries(slot, action, t), slot, action, g)
  {
    EntriesAre(slot, action, t);
    hide Entries, Sum;
    var after := history + Entries(slot, action, t);
    assert after[|history|..] == Entries(slot, action, t);
    forall i | |history| <= i < |after| ensures after[i].slot == slot && after[i].action == action && after[i].grams > 0 {
      assert after[i] in Entries(slot, action, t);
    }
  }

  lemma MovedThenSold(before: seq<Lot>, mid: seq<Lot>, after: seq<Lot>, slot: Slot, action: Action, g: nat)
    requires OldestMoved(before, mid, slot) && GramsMoved(before, mid, slot, action, g) && OnlySale(mid, after, slot)
    ensures OldestMoved(before, after, slot) && GramsMoved(before, after, slot, action, g)
  {
    hide CharityIn, CancelIn, CreditedIn, SentIn, SaleIn;
    OnlySaleKeeps(mid, after, slot);
  }

  lemma MovedIntoSale(s: State, moved: State, t: State, slot: Slot, action: Action, g: nat, env: Env)
    requires g > 0 && SaleChange(action, g) == g
    requires moved == s.(lots := moved.lots, keys := moved.keys, counters := moved.counters, history := moved.history)
    requires t == moved.(lots := t.lots, counters := t.counters, firstCredit := t.firstCredit)
    requires OldestMoved(s.lots, moved.lots, slot) && GramsMoved(s.lots, moved.lots, slot, action, g) && OnlySale(moved.lots, t.lots, slot)
    requires forall x :: SaleIn(moved.lots, x) == SaleIn(s.lots, x) + (if x == slot then g else 0)
    requires forall x :: SaleIn(t.lots, x) + AppliedIn(t, x) == SaleIn(moved.lots, x) + AppliedIn(s, x)
    requires Noted(s.history, moved.history, slot, action, g)
    requires CountersCredited(s, t, slot, env) && FirstCredited(s, t, slot, env.period)
    ensures MovedAs(s, t, slot, action, g, env)
  {
    hide OldestMoved, GramsMoved, OnlySale, SaleIn, AppliedIn, CountersCredited, FirstCredited, Noted;
    MovedThenSold(s.lots, moved.lots, t.lots, slot, action, g);
  }

  lemma MoveFacts(s: State, slot: Slot, move: BucketMove, g: nat)
    requires move in BUCKET_MOVES && 0 < g <= Pool(s.lots, slot, move.from)
    ensures var lots := Drain(s.lots, slot, move.from, move.to, g);
      && OldestMoved(s.lots, lots, slot) && GramsMoved(s.lots, lots, slot, move.action, g)
      && (forall x :: SaleIn(lots, x) == SaleIn(s.lots, x) + (if x == slot then SaleChange(move.action, g) else 0))
      && (move.from == Sale ==> OldestSold(s.lots, lots, slot))
    ensures Noted(s.history, s.history + Entries(slot, move.action, Taken(s.lots, slot, move.from, g)), slot, move.action, g)
    ensures move.to == Into(Sale) <==> SaleChange(move.action, g) == g
    ensures move.from == Sale <==> SaleChange(move.action, g) < 0
    ensures move.to == Into(Sale) || SaleChange(move.action, g) <= 0
  {
    hide OldestMoved, GramsMoved, OldestSold, SaleIn, Noted, Drain, Entries, Pool, Sum, Taken;
    MovedRows(s.lots, slot, move.from, move.to, g);
    MovedTotals(s.lots, slot, move, g);
    DrainFrom(s.lots, slot, move.from, move.to, g);
    EntriesNoted(s.history, slot, move.action, Taken(s.lots, slot, move.from, g), g);
  }

  lemma MoveIntoSaleMeans(s: State, slot: Slot, move: BucketMove, g: nat, env: Env)
    requires Inv(s) && move in BUCKET_MOVES && move.to == Into(Sale) && 0 < g <= Pool(s.lots, slot, move.from)
    ensures KeysMatch(s)
    ensures var moved := PrepareCredit(s, slot, env).(
              lots := Drain(s.lots, slot, move.from, move.to, g),
              history := s.history + Entries(slot, move.action, Taken(s.lots, slot, move.from, g)));
      KeysMatch(MarkCredit(moved, slot, env.period)) && MovedAs(s, Settle(MarkCredit(moved, slot, env.period), slot), slot, move.action, g, env)
  {
    assert KeysMatch(s);
    hide Inv, OldestMoved, GramsMoved, OldestSold, SaleIn, AppliedIn, CountersCredited, FirstCredited, Pending, OnlySale, PrepareCredit, MovedAs,
         Settle, MarkCredit, KeysMatch, Noted, Drain, Taken, Entries, Pool, Sum, SaleChange;
    MoveIsPending(s, slot, move, g, env);
    MoveFacts(s, slot, move, g);
    CreditMoved(s, slot, move.action, g, env, Drain(s.lots, slot, move.from, move.to, g),
                s.history + Entries(slot, move.action, Taken(s.lots, slot, move.from, g)));
  }

  lemma CreditMoved(s: State, slot: Slot, action: Action, g: nat, env: Env, lots: seq<Lot>, history: seq<Entry>)
    requires KeysMatch(s) && Pending(PrepareCredit(s, slot, env).(lots := lots, history := history), slot, 0)
    requires g > 0 && SaleChange(action, g) == g && OldestMoved(s.lots, lots, slot) && GramsMoved(s.lots, lots, slot, action, g)
    requires forall x :: SaleIn(lots, x) == SaleIn(s.lots, x) + (if x == slot then g else 0)
    requires Noted(s.history, history, slot, action, g)
    ensures var moved := PrepareCredit(s, slot, env).(lots := lots, history := history);
      KeysMatch(MarkCredit(moved, slot, env.period)) && MovedAs(s, Settle(MarkCredit(moved, slot, env.period), slot), slot, action, g, env)
  {
    hide OldestMoved, GramsMoved, SaleIn, AppliedIn, CountersCredited, FirstCredited, Pending, OnlySale, PrepareCredit, MovedAs, Settle,
         MarkCredit, KeysMatch, Noted, SaleChange;
    var moved := PrepareCredit(s, slot, env).(lots := lots, history := history);
    PreparedCounters(s, slot, env);
    CreditIs(s, moved, slot, env, 0);
    MovedIntoSale(s, moved, Settle(MarkCredit(moved, slot, env.period), slot), slot, action, g, env);
  }

  lemma MoveMeans(s: State, slot: Slot, move: BucketMove, g: nat, env: Env)
    requires Inv(s) && move in BUCKET_MOVES && MoveBucket(s, slot, move, g, env).Done?
    ensures var t := MoveBucket(s, slot, move, g, env).state;
      && MovedAs(s, t, slot, move.action, g, env) && |t.lots| == |s.lots|
      && (SaleChange(move.action, g) < 0 ==> OldestSold(s.lots, t.lots, slot))
  {
    assert KeysMatch(s);
    hide Inv, Settle, PrepareCredit, MarkCredit, KeysMatch, Drain, Taken, Entries, Pool, OldestMoved, GramsMoved, OldestSold, SaleIn, AppliedIn,
         Noted, SaleChange, CountersCredited, FirstCredited;
    MoveFacts(s, slot, move, g);
    hide MovedAs;
    if move.to == Into(Sale) {
      MoveIntoSaleMeans(s, slot, move, g, env);
      MovedKeepsLots(s, MoveBucket(s, slot, move, g, env).state, slot, move.action, g, env);
    } else {
      MovedAside(s, MoveBucket(s, slot, move, g, env).state, slot, move.action, g, env);
    }
  }

  lemma MovedAside(s: State, t: State, slot: Slot, action: Action, g: nat, env: Env)
    requires g > 0 && SaleChange(action, g) <= 0 && t == s.(lots := t.lots, history := t.history)
    requires OldestMoved(s.lots, t.lots, slot) && GramsMoved(s.lots, t.lots, slot, action, g) && Noted(s.history, t.history, slot, action, g)
    requires forall x :: SaleIn(t.lots, x) == SaleIn(s.lots, x) + (if x == slot then SaleChange(action, g) else 0)
    ensures MovedAs(s, t, slot, action, g, env)
  {
    hide OldestMoved, GramsMoved, SaleIn, AppliedIn, Noted, SaleChange;
    SameApplied(s, t);
  }

  lemma MovedKeepsLots(s: State, t: State, slot: Slot, action: Action, g: nat, env: Env)
    requires MovedAs(s, t, slot, action, g, env)
    ensures |t.lots| == |s.lots|
  {
  }

  /** In the bucket that a move takes from. */
  function InBucket(lots: seq<Lot>, slot: Slot, action: Action): nat {
    if action == CharityToSale || action == CharityExport then CharityIn(lots, slot)
    else if action == CancelToSale || action == CancelFinalize then CancelIn(lots, slot)
    else SaleIn(lots, slot)
  }

  /** A move is refused for nothing or for more than the bucket holds, and a final cancellation for less. */
  lemma MoveRefusedWhen(s: State, slot: Slot, move: BucketMove, g: nat, env: Env)
    requires KeysMatch(s) && move in BUCKET_MOVES
    ensures var r := MoveBucket(s, slot, move, g, env);
      if move.action == CancelFinalize && g != CancelIn(s.lots, slot) then r == Refused(ValidationError)
      else if g == 0 || g > InBucket(s.lots, slot, move.action) then r == Refused(InsufficientStock)
      else r.Done?
  {
    PoolsAre(s.lots, slot);
    hide Pool, SaleIn, CharityIn, CancelIn, Settle, PrepareCredit, MarkCredit, Drain, Taken, Entries;
  }

  // ---------------------------------------------------------------------------------------------
  // The charity weight of one lot
  // ---------------------------------------------------------------------------------------------

  /** One lot gives up `g` grams of charity weight; going to Sale they are credited to it. */
  ghost predicate LotMovedAs(before: State, after: State, lot: nat, g: nat, toSale: bool, env: Env) {
    && lot < |before.lots| == |after.lots| && var l := before.lots[lot];
    && 0 < g <= l.charity && (toSale || g == l.charity)
    && after == before.(lots := after.lots, keys := after.keys, counters := after.counters, firstCredit := after.firstCredit,
                        history := after.history)
    && after.history == before.history + [Entry(l.slot, if toSale then CharityToSale else CharityExport, g)]
    && (forall i :: 0 <= i < |before.lots| ==>
          after.lots[i] == before.lots[i].(
            charity := before.lots[i].charity - (if i == lot then g else 0),
            credited := before.lots[i].credited + (if i == lot && toSale then g else 0),
            sale := if toSale && before.lots[i].slot == l.slot then after.lots[i].sale else before.lots[i].sale))
    && (forall x :: SaleIn(after.lots, x) + AppliedIn(after, x)
                 == SaleIn(before.lots, x) + AppliedIn(before, x) + (if x == l.slot && toSale then g else 0))
    && if toSale
       then CountersCredited(before, after, l.slot, env) && FirstCredited(before, after, l.slot, env.period)
       else after.counters == before.counters && after.keys == before.keys && after.firstCredit == before.firstCredit
  }

  lemma LotIntoSale(s: State, moved: State, credited: State, t: State, lot: nat, g: nat, env: Env)
    requires lot < |s.lots| && 0 < g <= s.lots[lot].charity
    requires moved == s.(lots := s.lots[lot := Move(s.lots[lot], Charity, Into(Sale), g)], keys := moved.keys, counters := moved.counters)
    requires credited == moved.(lots := credited.lots, counters := credited.counters, firstCredit := credited.firstCredit)
    requires t == credited.(history := credited.history + [Entry(s.lots[lot].slot, CharityToSale, g)])
    requires OnlySale(moved.lots, credited.lots, s.lots[lot].slot)
    requires forall x :: SaleIn(credited.lots, x) + AppliedIn(credited, x) == SaleIn(moved.lots, x) + AppliedIn(s, x)
    requires CountersCredited(s, credited, s.lots[lot].slot, env) && FirstCredited(s, credited, s.lots[lot].slot, env.period)
    ensures LotMovedAs(s, t, lot, g, true, env)
  {
    hide SaleIn, AppliedIn, CountersCredited, FirstCredited;
    LotGained(s.lots, lot, moved.lots[lot]);
    CountersHistory(s, credited, t, s.lots[lot].slot, env);
  }

  lemma CreditLotMeans(s: State, lot: nat, g: nat, env: Env)
    requires Inv(s) && lot < |s.lots| && 0 < g <= s.lots[lot].charity
    ensures KeysMatch(s) && var slot := s.lots[lot].slot;
      var moved := PrepareCredit(s, slot, env).(lots := s.lots[lot := Move(s.lots[lot], Charity, Into(Sale), g)]);
      KeysMatch(MarkCredit(moved, slot, env.period)) &&
      var credited := Settle(MarkCredit(moved, slot, env.period), slot);
      LotMovedAs(s, credited.(history := credited.history + [Entry(slot, CharityToSale, g)]), lot, g, true, env)
  {
    assert KeysMatch(s);
    hide Inv, SaleIn, AppliedIn, CountersCredited, FirstCredited, Pending, OnlySale, PrepareCredit, LotMovedAs, Settle, MarkCredit, KeysMatch, Move;
    var slot := s.lots[lot].slot;
    var moved := PrepareCredit(s, slot, env).(lots := s.lots[lot := Move(s.lots[lot], Charity, Into(Sale), g)]);
    CreditLotIsPending(s, lot, g, env);
    PreparedCounters(s, slot, env);
    CreditIs(s, moved, slot, env, 0);
    var credited := Settle(MarkCredit(moved, slot, env.period), slot);
    LotIntoSale(s, moved, credited, credited.(history := credited.history + [Entry(slot, CharityToSale, g)]), lot, g, env);
  }

  lemma LotMoveMeans(s: State, lot: nat, seen: bool, g: nat, toSale: bool, env: Env)
    requires Inv(s) && !MoveLotCharity(s, lot, seen, g, toSale, env).Refused?
    ensures LotMovedAs(s, MoveLotCharity(s, lot, seen, g, toSale, env).state, lot, g, toSale, env)
  {
    if toSale {
      CreditLotMeans(s, lot, g, env);
      hide LotMovedAs, Inv, Settle, PrepareCredit, MarkCredit, KeysMatch, Move;
    } else {
      hide SaleIn, AppliedIn, Inv;
      var t := MoveLotCharity(s, lot, seen, g, toSale, env).state;
      LotGained(s.lots, lot, t.lots[lot]);
      SameApplied(s, t);
    }
  }

  // ---------------------------------------------------------------------------------------------
  // The order of a settlement
  // ---------------------------------------------------------------------------------------------

  /** Reversed sales go back to the newest lots first: none reaches a lot while a newer one has room. */
  lemma NewestAreRefundedFirst(lots: seq<Lot>, slot: Slot, g: nat, i: nat, j: nat)
    requires i < j < |lots| && lots[j].slot == slot
    ensures var after := Refund(lots, slot, g);
      after[i].sale > lots[i].sale ==> after[j].out + after[j].sale >= after[j].credited
  {
    hide LastCome;
    if LastCome(Rooms(lots, slot), g)[i] > 0 { LastComeInOrder(Rooms(lots, slot), g, i, j); }
  }

  /** Sales are charged to the counter of the earlier month first, and in a month to the one by weight. */
  lemma EarlierCountersArePaidFirst(s: State, slot: Slot, a: CounterKey, b: CounterKey)
    requires KeysMatch(s) && a in s.counters && b in s.counters && a.slot == b.slot == slot
    requires a.period < b.period || (a.period == b.period && a.kind == ByWeight && b.kind == ByPiece)
    ensures var t := Settle(s, slot).counters;
      a in t && b in t && (t[b].applied > Min(s.counters[b].applied, Max(0, s.counters[b].observed - s.counters[b].baseline)) ==>
                             t[a].applied == Max(0, s.counters[a].observed - s.counters[a].baseline))
  {
    hide FirstCome, SetApplied, Sum, KeysOf, KeyOrder;
    var ks := SlotKeys(s, slot);
    SlotKeysKnown(s, slot);
    var pool := PoolAfterReversal(s.lots, slot, s.counters, ks);
    SetAppliedAt(s.counters, ks, SettledApplied(s.counters, ks, pool));
    hide PoolAfterReversal, KeysMatch;
    var i :| 0 <= i < |ks| && ks[i] == a;
    var j :| 0 <= j < |ks| && ks[j] == b;
    KeysInOrder(s, slot, i, j);
    if FirstCome(Deficits(s.counters, ks), pool)[j] > 0 { FirstComeInOrder(Deficits(s.counters, ks), pool, i, j); }
  }

  lemma KeysInOrder(s: State, slot: Slot, i: nat, j: nat)
    requires i < |SlotKeys(s, slot)| && j < |SlotKeys(s, slot)|
    requires var a, b := SlotKeys(s, slot)[i], SlotKeys(s, slot)[j];
      a.period < b.period || (a.period == b.period && a.kind == ByWeight && b.kind == ByPiece)
    ensures i < j
  {
    var mine := Filter(s.keys, (k: CounterKey) => k.slot == slot);
    KeyOrderIsTotal();
    SortSorts(mine, KeyOrder);
    var ks := SlotKeys(s, slot);
    assert ks == Sort(mine, KeyOrder);
    hide SlotKeys, KeysOf, Sort;
    assert j < i ==> KeyOrder(ks[j], ks[i]);
  }

  lemma KeyOrderIsTotal()
    ensures TotalPreorder(KeyOrder)
  {
    forall a, b ensures KeyOrder(a, b) || KeyOrder(b, a) {
      match a.kind {
        case ByWeight =>
        case ByPiece =>
      }
    }
    forall a, b, c | KeyOrder(a, b) && KeyOrder(b, c) ensures KeyOrder(a, c) {
      match b.kind {
        case ByWeight =>
        case ByPiece =>
      }
    }
  }
}
