/** Fairness over any number of runs: the cursor a run leaves behind makes the next run continue the
round robin, so that in the long run no store is ahead of another by more than one unit. */
module Rotation {
  import opened Common
  import opened Quantities
  import opened WaterFill
  import opened Allocation
  import opened AllocationProperties

  /** One run of the allocator for a product. */
  datatype Call = Call(input: Input, out: Allocation)

  /** A run whose demand is all of one priority, where every store asks for more than an equal share. */
  ghost predicate IsBusy(order: seq<Id>, p: Priority, run: Call) {
    && order != [] && run.input.storeOrder == order && Valid(run.input) && IsOutcome(run.input, run.out)
    && (forall d :: d in run.input.demands ==> d.priority == p)
    && forall s :: s in order ==> run.input.stock < StoreDemand(run.input.demands, p, s) * |order|
  }

  /** Each run starts where the run before it left the cursor. */
  ghost predicate Persistent(order: seq<Id>, p: Priority, runs: seq<Call>) {
    && (forall k :: 0 <= k < |runs| ==> IsBusy(order, p, runs[k]))
    && forall k :: 0 < k < |runs| ==> runs[k].input.startCursor == runs[k - 1].out.nextCursor
  }

  /** Full turns around a ring of `n` stores in `x` units, and the units left for another turn. */
  function Turns(x: nat, n: nat): nat
    requires n > 0
  {
    if x < n then 0 else 1 + Turns(x - n, n)
  }

  function Rest(x: nat, n: nat): (r: nat)
    requires n > 0
    ensures r < n
  {
    if x < n then x else Rest(x - n, n)
  }

  lemma {:induction false} TurnsAndRest(x: nat, n: nat)
    requires n > 0
    ensures x == Turns(x, n) * n + Rest(x, n)
  {
    if x >= n {
      TurnsAndRest(x - n, n);
      assert (1 + Turns(x - n, n)) * n == n + Turns(x - n, n) * n;
    }
  }

  lemma {:induction false} TurnsOfSum(x: nat, y: nat, n: nat)
    requires n > 0
    ensures var carry := if Rest(x, n) + Rest(y, n) < n then 0 else 1;
      && Turns(x + y, n) == Turns(x, n) + Turns(y, n) + carry
      && Rest(x + y, n) == if carry == 0 then Rest(x, n) + Rest(y, n) else Rest(x, n) + Rest(y, n) - n
    decreases x + y
  {
    if x >= n {
      TurnsOfSum(x - n, y, n);
    } else if y >= n {
      TurnsOfSum(x, y - n, n);
    }
  }

  lemma {:induction false} SumOfLevel(claims: seq<nat>, level: nat, ahead: nat)
    requires ahead <= |claims|
    requires forall r :: 0 <= r < |claims| ==> claims[r] > level
    ensures Sum(AtLevel(claims, level, ahead)) == level * |claims| + ahead
  {
    if |claims| > 0 {
      var n := |claims| - 1;
      SumOfLevel(claims[..n], level, Min(ahead, n));
      assert AtLevel(claims, level, ahead)[..n] == AtLevel(claims[..n], level, Min(ahead, n));
      assert level * |claims| == level * n + level;
    }
  }

  lemma AdvanceOfLevel(claims: seq<nat>, level: nat, ahead: nat)
    requires ahead < |claims|
    requires forall r :: 0 <= r < |claims| ==> claims[r] > level
    ensures var d := Advance(AtLevel(claims, level, ahead));
      d == if ahead > 0 then ahead else if level > 0 then |claims| else 0
  {
    var q := AtLevel(claims, level, ahead);
    if ahead > 0 {
      AdvanceAt(q, ahead - 1, level + 1);
    } else if level > 0 {
      AdvanceAt(q, |claims| - 1, level);
    } else {
      assert forall r :: 0 <= r < |q| ==> q[r] == 0;
    }
  }

  lemma LevelIsFill(claims: seq<nat>, stock: nat, level: nat, ahead: nat)
    requires ahead <= |claims| && Sum(AtLevel(claims, level, ahead)) == stock
    ensures IsFill(claims, stock, AtLevel(claims, level, ahead))
  {
    SumLeq(AtLevel(claims, level, ahead), claims);
  }

  lemma LevelAt(claims: seq<nat>, level: nat, ahead: nat, r: nat)
    requires r < |claims| && claims[r] > level && ahead <= |claims|
    ensures AtLevel(claims, level, ahead)[r] == level + if r < ahead then 1 else 0
  {
  }

  lemma WholeTurn(cursor: nat, n: nat)
    requires cursor < n
    ensures Wrap(cursor + n, n) == Wrap(cursor, n)
  {
  }

  /** How far the store with index `k` is behind the cursor. */
  function Distance(cursor: nat, k: nat, n: nat): (r: nat)
    requires cursor < n && k < n
    ensures r < n && Wrap(cursor + r, n) == k
  {
    if k >= cursor then k - cursor else k + n - cursor
  }

  // ---------------------------------------------------------------------------------------------
  // The one priority with demand
  // ---------------------------------------------------------------------------------------------

  /** A priority without demand hands out nothing and leaves the cursor where it is. */
  lemma IdleTier(ds: seq<Demand>, p: Priority, order: seq<Id>, tier: Tier)
    requires IsTier(ds, p, order, tier) && forall d :: d in ds ==> d.priority != p
    ensures Sum(tier.grants) == 0 && Advance(tier.grants) == 0
  {
    forall r | 0 <= r < |order| ensures tier.grants[r] == 0 {
      var f := (d: Demand) => if d.priority == p && d.store == RingStore(order, tier.cursor, r) then d.requested else 0;
      TotalZero(ds, f);
      assert StoreDemand(ds, p, RingStore(order, tier.cursor, r)) == Total(ds, f);
      assert tier.grants[r] <= RingClaims(ds, p, order, tier.cursor)[r];
    }
    SumZero(tier.grants);
  }

  /** Where tier `k` starts when only priority `p` has demand. */
  lemma {:induction false} TierStarts(ds: seq<Demand>, order: seq<Id>, stock: nat, first: nat, tiers: seq<Tier>, p: Priority, k: nat)
    requires |tiers| == |PRIORITIES| && AreTiers(ds, order, stock, first, tiers) && forall d :: d in ds ==> d.priority == p
    requires k < |tiers|
    ensures tiers[k].cursor < |order| && |tiers[k].grants| == |order| && first < |order| && |tiers[Rank(p)].grants| == |order|
    ensures k <= Rank(p) ==> tiers[k].stock == stock && tiers[k].cursor == first
    ensures k > Rank(p) ==> tiers[k].cursor == Wrap(first + Advance(tiers[Rank(p)].grants), |order|)
  {
    hide IsFill, Sum, Advance, RingClaims, Wrap;
    PriorityIsListed(p);
    assert IsTier(ds, PRIORITIES[k], order, tiers[k]) && IsTier(ds, p, order, tiers[Rank(p)]) && IsTier(ds, PRIORITIES[0], order, tiers[0]);
    if k > 0 {
      TierStarts(ds, order, stock, first, tiers, p, k - 1);
      var before := tiers[k - 1];
      assert IsTier(ds, PRIORITIES[k - 1], order, before) && Follows(order, before, tiers[k].stock, tiers[k].cursor);
      if k - 1 != Rank(p) {
        IdleTier(ds, PRIORITIES[k - 1], order, before);
        NoStep(before.cursor, |order|);
      }
    }
  }

  lemma NoStep(cursor: nat, n: nat)
    requires cursor < n
    ensures Wrap(cursor + 0, n) == cursor
  {
  }

  /** Where the tiers end when only priority `p` has demand. */
  lemma TiersEnd(ds: seq<Demand>, order: seq<Id>, stock: nat, first: nat, tiers: seq<Tier>, p: Priority, left: nat, last: nat)
    requires |tiers| == |PRIORITIES| && AreTiers(ds, order, stock, first, tiers) && forall d :: d in ds ==> d.priority == p
    requires tiers[4].cursor < |order| && |tiers[4].grants| == |order| && Follows(order, tiers[4], left, last)
    ensures Rank(p) < |tiers| && first < |order| == |tiers[Rank(p)].grants|
    ensures tiers[Rank(p)].stock == stock && tiers[Rank(p)].cursor == first
    ensures last == Wrap(first + Advance(tiers[Rank(p)].grants), |order|)
  {
    hide IsFill, Sum, Advance, RingClaims, Wrap;
    PriorityIsListed(p);
    TierStarts(ds, order, stock, first, tiers, p, Rank(p));
    TierStarts(ds, order, stock, first, tiers, p, 4);
    if Rank(p) != 4 {
      assert IsTier(ds, PRIORITIES[4], order, tiers[4]);
      IdleTier(ds, PRIORITIES[4], order, tiers[4]);
      NoStep(tiers[4].cursor, |order|);
    }
  }

  /** The index at which the next run starts. */
  function NextIndex(run: Call): nat
    requires run.input.storeOrder != [] && (run.out.nextCursor.Some? ==> run.out.nextCursor.value in run.input.storeOrder)
  {
    if run.out.nextCursor.None? then 0 else IndexOf(run.input.storeOrder, run.out.nextCursor.value)
  }

  lemma IndexIsUnique(ids: seq<Id>, i: nat)
    requires DistinctIds(ids) && i < |ids|
    ensures IndexOf(ids, ids[i]) == i
  {
  }

  /** A busy run as a single tier: its stock, its start, its end, and the units of every store. */
  lemma BusyTier(order: seq<Id>, p: Priority, run: Call) returns (tier: Tier)
    requires IsBusy(order, p, run)
    ensures IsTier(InServingOrder(run.input.demands), p, order, tier)
    ensures tier.stock == run.input.stock && tier.cursor == StartIndex(run.input)
    ensures forall r :: 0 <= r < |order| ==> tier.grants[r] == GrantedTo(run.out.remainders, p, RingStore(order, tier.cursor, r))
    ensures run.out.nextCursor.Some? ==> run.out.nextCursor.value in order
    ensures NextIndex(run) == Wrap(tier.cursor + Advance(tier.grants), |order|)
  {
    hide Recorded, Advance, GrantedTo, IsFill, InServingOrder, AllReflect, Wrap;
    var ds := InServingOrder(run.input.demands);
    SortedDemands(run.input);
    var tiers: seq<Tier>, last: nat :| EndsAt(run.input, run.out, tiers, last);
    PriorityIsListed(p);
    TierOf(run.input, run.out, tiers, last, p);
    tier := tiers[Rank(p)];
    forall r | 0 <= r < |order| ensures tier.grants[r] == GrantedTo(run.out.remainders, p, RingStore(order, tier.cursor, r)) {
      TierIsGranted(ds, run.out.remainders, p, order, tier, r);
    }
    TiersEnd(ds, order, run.input.stock, StartIndex(run.input), tiers, p, run.input.stock - run.out.granted, last);
    if run.out.granted > 0 {
      IndexIsUnique(order, last);
    } else {
      NothingGranted(run.input, run.out, p, tier);
      NoStep(tier.cursor, |order|);
    }
  }

  lemma NothingGranted(input: Input, out: Allocation, p: Priority, tier: Tier)
    requires Valid(input) && IsOutcome(input, out) && out.granted == 0 && tier.cursor < |input.storeOrder| == |tier.grants|
    requires forall r :: 0 <= r < |tier.grants| ==>
      tier.grants[r] == GrantedTo(out.remainders, p, RingStore(input.storeOrder, tier.cursor, r))
    ensures Advance(tier.grants) == 0
  {
    hide Recorded, EndsAt, InServingOrder;
    forall i | 0 <= i < |out.remainders| ensures out.remainders[i].granted == 0 {
      SumAtLeast(Granted(out.remainders), i);
    }
    forall r | 0 <= r < |tier.grants| ensures tier.grants[r] == 0 {
      TotalZero(out.remainders, UnitsOf(p, RingStore(input.storeOrder, tier.cursor, r)));
    }
  }

  // ---------------------------------------------------------------------------------------------
  // One run
  // ---------------------------------------------------------------------------------------------

  lemma MulMonotone(a: nat, b: nat, n: nat)
    requires a <= b
    ensures a * n <= b * n
  {
  }

  lemma MoreThanTurns(x: nat, d: nat, n: nat)
    requires n > 0 && x < d * n
    ensures d > Turns(x, n)
  {
    TurnsAndRest(x, n);
    if d <= Turns(x, n) { MulMonotone(d, Turns(x, n), n); }
  }

  lemma SameDemand(input: Input, p: Priority, store: Id)
    requires Valid(input)
    ensures StoreDemand(InServingOrder(input.demands), p, store) == StoreDemand(input.demands, p, store)
  {
    SortedDemands(input);
    hide InServingOrder;
    TotalPermute(InServingOrder(input.demands), input.demands,
                 (d: Demand) => if d.priority == p && d.store == store then d.requested else 0);
  }

  /** A tier where nobody's claim runs out serves everybody up to the same level. */
  lemma TierIsLevel(claims: seq<nat>, stock: nat, grants: seq<nat>)
    requires claims != [] && IsFill(claims, stock, grants)
    requires forall r :: 0 <= r < |claims| ==> claims[r] > Turns(stock, |claims|)
    ensures grants == AtLevel(claims, Turns(stock, |claims|), Rest(stock, |claims|))
  {
    var n := |claims|;
    var a, b := Turns(stock, n), Rest(stock, n);
    var q := AtLevel(claims, a, b);
    assert Sum(q) == stock by {
      SumOfLevel(claims, a, b);
      TurnsAndRest(stock, n);
    }
    hide Sum, Turns, Rest, IsFill, AtLevel;
    LevelIsFill(claims, stock, a, b);
    FillIsUnique(claims, stock, grants, q);
  }

  /** A busy run serves everybody alike, and one more unit to the first stores behind the cursor, where
  the next run does not start again. */
  lemma BusyGrants(order: seq<Id>, p: Priority, run: Call, k: nat)
    requires IsBusy(order, p, run) && k < |order|
    ensures run.out.nextCursor.Some? ==> run.out.nextCursor.value in order
    ensures var n, c := |order|, StartIndex(run.input); var a, b := Turns(run.input.stock, n), Rest(run.input.stock, n);
      && c < n && GrantedTo(run.out.remainders, p, order[k]) == a + (if Distance(c, k, n) < b then 1 else 0)
      && NextIndex(run) == Wrap(c + b, n)
  {
    hide Advance, Turns, Rest, GrantedTo, IsFill, IsOutcome, InServingOrder, StoreDemand;
    var tier := BusyTier(order, p, run);
    var n, ds := |order|, InServingOrder(run.input.demands);
    var claims := RingClaims(ds, p, order, tier.cursor);
    var a, b := Turns(tier.stock, n), Rest(tier.stock, n);
    forall r | 0 <= r < n ensures claims[r] > a {
      var s := RingStore(order, tier.cursor, r);
      SameDemand(run.input, p, s);
      MoreThanTurns(tier.stock, StoreDemand(run.input.demands, p, s), n);
    }
    TierIsLevel(claims, tier.stock, tier.grants);
    AdvanceOfLevel(claims, a, b);
    WholeTurn(tier.cursor, n);
    LevelAt(claims, a, b, Distance(tier.cursor, k, n));
  }

  // ---------------------------------------------------------------------------------------------
  // Many runs
  // ---------------------------------------------------------------------------------------------

  /** What a store got from all runs. */
  ghost function Received(runs: seq<Call>, p: Priority, store: Id): nat {
    if |runs| == 0 then 0
    else Received(runs[..|runs| - 1], p, store) + GrantedTo(runs[|runs| - 1].out.remainders, p, store)
  }

  function StockOf(runs: seq<Call>): nat {
    if |runs| == 0 then 0 else StockOf(runs[..|runs| - 1]) + runs[|runs| - 1].input.stock
  }

  /** `x` units and then `y` units from where they end are `x + y` units. */
  lemma OneMoreRun(c: nat, x: nat, y: nat, k: nat, n: nat)
    requires c < n && k < n
    ensures var d := Wrap(c + Rest(x, n), n); var one, two, all := Distance(c, k, n) < Rest(x, n), Distance(d, k, n) < Rest(y, n), Distance(c, k, n) < Rest(x + y, n);
      && Turns(x, n) + (if one then 1 else 0) + Turns(y, n) + (if two then 1 else 0) == Turns(x + y, n) + (if all then 1 else 0)
      && Wrap(d + Rest(y, n), n) == Wrap(c + Rest(x + y, n), n)
  {
    TurnsOfSum(x, y, n);
    hide Turns, Rest;
  }

  /** The state of the ring after all runs: what a store got, and where the next run starts. */
  ghost predicate AsOneRound(order: seq<Id>, p: Priority, runs: seq<Call>, k: nat)
    requires Persistent(order, p, runs) && runs != [] && k < |order|
  {
    var n, s, c, last := |order|, StockOf(runs), StartIndex(runs[0].input), runs[|runs| - 1];
    && c < n && Received(runs, p, order[k]) == Turns(s, n) + (if Distance(c, k, n) < Rest(s, n) then 1 else 0)
    && (last.out.nextCursor.Some? ==> last.out.nextCursor.value in order)
    && NextIndex(last) == Wrap(c + Rest(s, n), n)
  }

  lemma ReceivedNext(runs: seq<Call>, run: Call, p: Priority, store: Id)
    ensures Received(runs + [run], p, store) == Received(runs, p, store) + GrantedTo(run.out.remainders, p, store)
    ensures StockOf(runs + [run]) == StockOf(runs) + run.input.stock
    ensures Received([], p, store) == 0 && StockOf([]) == 0
  {
    assert (runs + [run])[..|runs|] == runs;
  }

  lemma OneRunAlone(order: seq<Id>, p: Priority, run: Call, k: nat)
    requires Persistent(order, p, [run]) && k < |order|
    ensures AsOneRound(order, p, [run], k)
  {
    hide Turns, Rest, GrantedTo, Wrap, StockOf, Received, IsBusy;
    assert IsBusy(order, p, [run][0]);
    BusyGrants(order, p, run, k);
    ReceivedNext([], run, p, order[k]);
    assert [] + [run] == [run];
  }

  lemma PersistentEnds(order: seq<Id>, p: Priority, runs: seq<Call>, run: Call)
    requires runs != [] && Persistent(order, p, runs + [run])
    ensures Persistent(order, p, runs) && IsBusy(order, p, run)
    ensures run.input.startCursor == runs[|runs| - 1].out.nextCursor
    ensures (runs + [run])[0] == runs[0] && (runs + [run])[|runs|] == run
  {
    hide IsBusy;
    var all := runs + [run];
    assert all[|runs|] == run && all[|runs| - 1] == runs[|runs| - 1];
    assert forall k :: 0 <= k < |runs| ==> all[k] == runs[k];
  }

  lemma SameIndex(last: Call, input: Input)
    requires Valid(input) && input.storeOrder == last.input.storeOrder != [] && input.startCursor == last.out.nextCursor
    ensures last.out.nextCursor.Some? ==> last.out.nextCursor.value in last.input.storeOrder
    ensures StartIndex(input) == NextIndex(last)
  {
  }

  lemma SameOrder(order: seq<Id>, p: Priority, run: Call)
    requires IsBusy(order, p, run)
    ensures Valid(run.input) && run.input.storeOrder == order != []
  {
  }

  lemma RunAfterRuns(order: seq<Id>, p: Priority, runs: seq<Call>, run: Call, k: nat)
    requires runs != [] && k < |order| && Persistent(order, p, runs) && Persistent(order, p, runs + [run])
    requires AsOneRound(order, p, runs, k)
    ensures AsOneRound(order, p, runs + [run], k)
  {
    hide Turns, Rest, GrantedTo, Wrap, StockOf, Received, IsBusy, NextIndex, StartIndex;
    var last := runs[|runs| - 1];
    assert IsBusy(order, p, last) && IsBusy(order, p, runs[0]);
    PersistentEnds(order, p, runs, run);
    hide Persistent;
    SameOrder(order, p, last);
    SameOrder(order, p, run);
    SameOrder(order, p, runs[0]);
    BusyGrants(order, p, run, k);
    SameIndex(last, run.input);
    OneMoreRun(StartIndex(runs[0].input), StockOf(runs), run.input.stock, k, |order|);
    ReceivedNext(runs, run, p, order[k]);
  }

  /** Over all runs the stores share as in a single round robin of the whole stock. */
  lemma {:induction false} RunsContinueTheRing(order: seq<Id>, p: Priority, runs: seq<Call>, k: nat)
    requires Persistent(order, p, runs) && runs != [] && k < |order|
    ensures AsOneRound(order, p, runs, k)
  {
    hide AsOneRound, IsBusy;
    var front, last := runs[..|runs| - 1], runs[|runs| - 1];
    if front == [] {
      assert runs == [last];
      OneRunAlone(order, p, last, k);
    } else {
      assert runs == front + [last];
      RunsContinueTheRing(order, p, front, k);
      RunAfterRuns(order, p, front, last, k);
    }
  }

  /** While demand never runs out, no store is ever more than one unit ahead of another. */
  lemma NoStoreFallsBehind(order: seq<Id>, p: Priority, runs: seq<Call>, k: nat, l: nat)
    requires Persistent(order, p, runs) && k < |order| && l < |order|
    ensures Received(runs, p, order[k]) <= Received(runs, p, order[l]) + 1
  {
    if runs != [] {
      RunsContinueTheRing(order, p, runs, k);
      RunsContinueTheRing(order, p, runs, l);
    }
  }
}
