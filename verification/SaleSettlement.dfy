/** Settling a slot's Sale lots against the sales figures of its counters.

Each counter follows one external cumulative figure (by period and kind of sale), which may go down
as well as up.  Settling first reverses what was applied beyond a counter's target into the newest
lots, then debits what is still due from the oldest lots, counter by counter. */
module SaleSettlement {
  import opened Quantities
  import opened Ordering
  import opened SaleLots

  type Period = int

  datatype SaleKind = ByWeight | ByPiece

  datatype CounterKey = CounterKey(slot: Slot, period: Period, kind: SaleKind)

  datatype Counter = Counter(baseline: nat, observed: nat, applied: nat, pending: bool)

  type Counters = map<CounterKey, Counter>

  function Target(c: Counter): nat {
    Monus(c.observed, c.baseline)
  }

  /** Applied beyond the target. */
  function Excess(c: Counter): nat {
    Monus(c.applied, Target(c))
  }

  /** Still missing to the target. */
  function Deficit(c: Counter): nat {
    Monus(Target(c), c.applied)
  }

  predicate KeyOrder(a: CounterKey, b: CounterKey) {
    if a.period != b.period then a.period < b.period
    else a.kind == ByWeight || b.kind == ByPiece
  }

  function KeysOf(keys: seq<CounterKey>, slot: Slot): seq<CounterKey> {
    Sort(Filter(keys, (k: CounterKey) => k.slot == slot), KeyOrder)
  }

  ghost predicate Known(counters: Counters, ks: seq<CounterKey>) {
    Distinct(ks) && forall k :: k in ks ==> k in counters
  }

  function Excesses(counters: Counters, ks: seq<CounterKey>): (q: seq<nat>)
    requires forall k :: k in ks ==> k in counters
    ensures |q| == |ks|
  {
    seq(|ks|, i requires 0 <= i < |ks| => Excess(counters[ks[i]]))
  }

  function Deficits(counters: Counters, ks: seq<CounterKey>): (q: seq<nat>)
    requires forall k :: k in ks ==> k in counters
    ensures |q| == |ks|
  {
    seq(|ks|, i requires 0 <= i < |ks| => Deficit(counters[ks[i]]))
  }

  function Applieds(counters: Counters, ks: seq<CounterKey>): (q: seq<nat>)
    requires forall k :: k in ks ==> k in counters
    ensures |q| == |ks|
  {
    seq(|ks|, i requires 0 <= i < |ks| => counters[ks[i]].applied)
  }

  function Targets(counters: Counters, ks: seq<CounterKey>): (q: seq<nat>)
    requires forall k :: k in ks ==> k in counters
    ensures |q| == |ks|
  {
    seq(|ks|, i requires 0 <= i < |ks| => Target(counters[ks[i]]))
  }

  /** The counters after `applied[i]` became the applied weight of `ks[i]`. */
  function SetApplied(counters: Counters, ks: seq<CounterKey>, applied: seq<nat>): (r: Counters)
    requires |applied| == |ks| && forall k :: k in ks ==> k in counters
    ensures r.Keys == counters.Keys
  {
    if |ks| == 0 then counters
    else
      var n := |ks| - 1;
      var before := SetApplied(counters, ks[..n], applied[..n]);
      before[ks[n] := counters[ks[n]].(applied := applied[n])]
  }

  lemma {:induction false} SetAppliedAt(counters: Counters, ks: seq<CounterKey>, applied: seq<nat>)
    requires |applied| == |ks| && Known(counters, ks)
    ensures var r := SetApplied(counters, ks, applied);
      && (forall i :: 0 <= i < |ks| ==> r[ks[i]] == counters[ks[i]].(applied := applied[i]))
      && (forall k :: k in counters && k !in ks ==> r[k] == counters[k])
  {
    if |ks| > 0 {
      var n := |ks| - 1;
      assert ks == ks[..n] + [ks[n]];
      SetAppliedAt(counters, ks[..n], applied[..n]);
      assert forall i :: 0 <= i < n ==> ks[i] == ks[..n][i] && ks[i] != ks[n];
    }
  }

  /** Applied down to the targets, and then what the pool can still pay, in the order of the counters. */
  function SettledApplied(counters: Counters, ks: seq<CounterKey>, pool: nat): (q: seq<nat>)
    requires forall k :: k in ks ==> k in counters
    ensures |q| == |ks|
  {
    var paid := FirstCome(Deficits(counters, ks), pool);
    seq(|ks|, i requires 0 <= i < |ks| => Min(counters[ks[i]].applied, Target(counters[ks[i]])) + paid[i])
  }

  function SettledLots(lots: seq<Lot>, slot: Slot, counters: Counters, ks: seq<CounterKey>): (r: seq<Lot>)
    requires forall k :: k in ks ==> k in counters
    ensures |r| == |lots|
  {
    Drain(Refund(lots, slot, Sum(Excesses(counters, ks))), slot, Sale, Gone, Sum(Deficits(counters, ks)))
  }

  /** What the pool holds once the reversals are in. */
  function PoolAfterReversal(lots: seq<Lot>, slot: Slot, counters: Counters, ks: seq<CounterKey>): nat
    requires forall k :: k in ks ==> k in counters
  {
    Pool(Refund(lots, slot, Sum(Excesses(counters, ks))), slot, Sale)
  }

  function SettledCounters(lots: seq<Lot>, slot: Slot, counters: Counters, ks: seq<CounterKey>): (r: Counters)
    requires forall k :: k in ks ==> k in counters
    ensures r.Keys == counters.Keys
  {
    SetApplied(counters, ks, SettledApplied(counters, ks, PoolAfterReversal(lots, slot, counters, ks)))
  }

  /** The reversals fit into the room the lots have. */
  predicate CanReverse(lots: seq<Lot>, slot: Slot, counters: Counters, ks: seq<CounterKey>)
    requires forall k :: k in ks ==> k in counters
  {
    Sum(Excesses(counters, ks)) <= RoomOf(lots, slot)
  }

  // ---------------------------------------------------------------------------------------------
  // The closed form
  // ---------------------------------------------------------------------------------------------

  lemma ExcessOrDeficit(counters: Counters, ks: seq<CounterKey>)
    requires forall k :: k in ks ==> k in counters
    ensures Sum(Applieds(counters, ks)) + Sum(Deficits(counters, ks))
         == Sum(Targets(counters, ks)) + Sum(Excesses(counters, ks))
  {
    var a, d, t, e := Applieds(counters, ks), Deficits(counters, ks), Targets(counters, ks), Excesses(counters, ks);
    var both := seq(|ks|, i requires 0 <= i < |ks| => a[i] + d[i]);
    SumPlus(a, d, both);
    SumPlus(t, e, both);
  }

  lemma SettledAppliedSum(counters: Counters, ks: seq<CounterKey>, pool: nat)
    requires forall k :: k in ks ==> k in counters
    ensures Sum(SettledApplied(counters, ks, pool)) + Sum(Excesses(counters, ks))
         == Sum(Applieds(counters, ks)) + Min(pool, Sum(Deficits(counters, ks)))
  {
    var paid := FirstCome(Deficits(counters, ks), pool);
    FirstComeSum(Deficits(counters, ks), pool);
    var a, e := Applieds(counters, ks), Excesses(counters, ks);
    var s := SettledApplied(counters, ks, pool);
    var both := seq(|ks|, i requires 0 <= i < |ks| => a[i] + paid[i]);
    SumPlus(a, paid, both);
    SumPlus(s, e, both);
  }

  lemma SettledAppliedIs(lots: seq<Lot>, slot: Slot, counters: Counters, ks: seq<CounterKey>)
    requires Known(counters, ks)
    ensures Applieds(SettledCounters(lots, slot, counters, ks), ks)
         == SettledApplied(counters, ks, PoolAfterReversal(lots, slot, counters, ks))
    ensures Targets(SettledCounters(lots, slot, counters, ks), ks) == Targets(counters, ks)
    ensures forall k :: k in counters && k !in ks ==> SettledCounters(lots, slot, counters, ks)[k] == counters[k]
  {
    var q := SettledApplied(counters, ks, PoolAfterReversal(lots, slot, counters, ks));
    SetAppliedAt(counters, ks, q);
  }

  /** Settlement neither creates nor loses weight, and applies exactly as much as both the targets and
  the weight on hand allow. */
  lemma SettlementTotals(lots: seq<Lot>, slot: Slot, counters: Counters, ks: seq<CounterKey>)
    requires Known(counters, ks) && CanReverse(lots, slot, counters, ks)
    ensures var lots', counters' := SettledLots(lots, slot, counters, ks), SettledCounters(lots, slot, counters, ks);
      && Pool(lots', slot, Sale) + Sum(Applieds(counters', ks)) == Pool(lots, slot, Sale) + Sum(Applieds(counters, ks))
      && Sum(Applieds(counters', ks)) == Min(Sum(Targets(counters, ks)), Sum(Applieds(counters, ks)) + Pool(lots, slot, Sale))
  {
    hide FirstCome, Refund, Drain, SetApplied, Sum, Amounts, Rooms, SettledApplied;
    var r := Sum(Excesses(counters, ks));
    var mid := Refund(lots, slot, r);
    RefundTotals(lots, slot, r);
    DrainFrom(mid, slot, Sale, Gone, Sum(Deficits(counters, ks)));
    SettledAppliedIs(lots, slot, counters, ks);
    SettledAppliedSum(counters, ks, Pool(mid, slot, Sale));
    ExcessOrDeficit(counters, ks);
  }

  /** Every counter has reached its target, or nothing is left to debit. */
  ghost predicate Settled(lots: seq<Lot>, slot: Slot, counters: Counters, ks: seq<CounterKey>)
    requires forall k :: k in ks ==> k in counters
  {
    && (forall k :: k in ks ==> counters[k].applied <= Target(counters[k]))
    && (Pool(lots, slot, Sale) == 0 || forall k :: k in ks ==> counters[k].applied == Target(counters[k]))
  }

  lemma SettlementSettles(lots: seq<Lot>, slot: Slot, counters: Counters, ks: seq<CounterKey>)
    requires Known(counters, ks) && CanReverse(lots, slot, counters, ks)
    ensures Settled(SettledLots(lots, slot, counters, ks), slot, SettledCounters(lots, slot, counters, ks), ks)
  {
    hide SettledCounters, SettledLots, CanReverse, Sum;
    var counters' := SettledCounters(lots, slot, counters, ks);
    SettledAppliedIs(lots, slot, counters, ks);
    SettlementTotals(lots, slot, counters, ks);
    var a, t := Applieds(counters', ks), Targets(counters', ks);
    forall i | 0 <= i < |ks| ensures a[i] <= t[i] && a[i] == counters'[ks[i]].applied && t[i] == Target(counters'[ks[i]]) {
    }
    if Pool(SettledLots(lots, slot, counters, ks), slot, Sale) != 0 {
      SumLeq(a, t);
    }
  }

  lemma NothingApplied(counters: Counters, ks: seq<CounterKey>, pool: nat)
    requires Known(counters, ks)
    requires forall k :: k in ks ==> counters[k].applied <= Target(counters[k])
    requires pool == 0 || forall k :: k in ks ==> counters[k].applied == Target(counters[k])
    ensures SetApplied(counters, ks, SettledApplied(counters, ks, pool)) == counters
  {
    hide FirstCome, SetApplied, Sum;
    SumZero(Deficits(counters, ks));
    FirstComeSum(Deficits(counters, ks), pool);
    SumZero(FirstCome(Deficits(counters, ks), pool));
    SetAppliedAt(counters, ks, SettledApplied(counters, ks, pool));
    var counters' := SetApplied(counters, ks, SettledApplied(counters, ks, pool));
    forall k | k in counters ensures counters'[k] == counters[k] {
      if k in ks {
        var i :| 0 <= i < |ks| && ks[i] == k;
        assert FirstCome(Deficits(counters, ks), pool)[i] == 0;
      }
    }
  }

  /** A settled slot is left as it is. */
  lemma SettledStays(lots: seq<Lot>, slot: Slot, counters: Counters, ks: seq<CounterKey>)
    requires Known(counters, ks) && Settled(lots, slot, counters, ks)
    ensures CanReverse(lots, slot, counters, ks)
    ensures SettledLots(lots, slot, counters, ks) == lots
    ensures SettledCounters(lots, slot, counters, ks) == counters
  {
    hide Sum, FirstCome, Drain, Refund, SetApplied, SettledApplied;
    SumZero(Excesses(counters, ks));
    RefundNothing(lots, slot);
    SumZero(Deficits(counters, ks));
    DrainNothing(lots, slot, Sale, Gone, Sum(Deficits(counters, ks)));
    NothingApplied(counters, ks, Pool(lots, slot, Sale));
  }

  /** Settling again changes nothing. */
  lemma SettlementIsIdempotent(lots: seq<Lot>, slot: Slot, counters: Counters, ks: seq<CounterKey>)
    requires Known(counters, ks) && CanReverse(lots, slot, counters, ks)
    ensures var lots', counters' := SettledLots(lots, slot, counters, ks), SettledCounters(lots, slot, counters, ks);
      && CanReverse(lots', slot, counters', ks)
      && SettledLots(lots', slot, counters', ks) == lots' && SettledCounters(lots', slot, counters', ks) == counters'
  {
    SettlementSettles(lots, slot, counters, ks);
    SettledStays(SettledLots(lots, slot, counters, ks), slot, SettledCounters(lots, slot, counters, ks), ks);
  }
}
