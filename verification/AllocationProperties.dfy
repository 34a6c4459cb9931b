/** What the allocator promises, derived from the description of its outcome. */
module AllocationProperties {
  import opened Common
  import opened Quantities
  import opened WaterFill
  import opened Ordering
  import opened Allocation

  // ---------------------------------------------------------------------------------------------
  // Strict priorities and conservation
  // ---------------------------------------------------------------------------------------------

  /** A later tier starts with at most what an earlier tier left. */
  lemma {:induction false} TierStock(ds: seq<Demand>, order: seq<Id>, stock: nat, first: nat, tiers: seq<Tier>, a: nat, b: nat)
    requires AreTiers(ds, order, stock, first, tiers) && a < b < |tiers|
    ensures tiers[b].stock + Sum(tiers[a].grants) <= tiers[a].stock
    decreases b
  {
    assert Follows(order, tiers[b - 1], tiers[b].stock, tiers[b].cursor);
    if a < b - 1 {
      TierStock(ds, order, stock, first, tiers, a, b - 1);
    }
  }

  lemma ServedAll(ds: seq<Demand>, i: nat)
    requires i < |ds|
    ensures Served(ds, i, StoreDemand(ds, ds[i].priority, ds[i].store)) == ds[i].requested
  {
    StoreDemandStep(ds, i, ds[i].priority, ds[i].store);
    StoreDemandGrows(ds, i + 1, |ds|, ds[i].priority, ds[i].store);
    assert ds[..|ds|] == ds;
  }

  /** In a tier that left stock over, every demand is fully served. */
  lemma StockLeftMeansServed(ds: seq<Demand>, order: seq<Id>, tier: Tier, remaining: seq<nat>, i: nat)
    requires i < |ds| == |remaining| && ds[i].store in order
    requires IsTier(ds, ds[i].priority, order, tier) && Reflects(ds, ds[i].priority, order, tier, remaining)
    requires Sum(tier.grants) < tier.stock
    ensures remaining[i] == 0
  {
    FillIsExhaustive(RingClaims(ds, ds[i].priority, order, tier.cursor), tier.stock, tier.grants);
    var r := RingCovers(order, tier.cursor, ds[i].store);
    ServedAll(ds, i);
  }

  /** A tier without stock serves nobody. */
  lemma NoStockMeansUnserved(ds: seq<Demand>, order: seq<Id>, tier: Tier, remaining: seq<nat>, i: nat)
    requires i < |ds| == |remaining| && ds[i].store in order
    requires IsTier(ds, ds[i].priority, order, tier) && Reflects(ds, ds[i].priority, order, tier, remaining)
    requires tier.stock == 0
    ensures remaining[i] == ds[i].requested
  {
    var r := RingCovers(order, tier.cursor, ds[i].store);
    SumAtLeast(tier.grants, r);
  }

  lemma OutcomeTiers(input: Input, out: Allocation) returns (tiers: seq<Tier>, last: nat)
    requires Valid(input) && IsOutcome(input, out) && input.demands != []
    ensures input.storeOrder != [] && EndsAt(input, out, tiers, last)
  {
    HasMember(input.demands);
    tiers, last :| EndsAt(input, out, tiers, last);
  }

  /** A demand of a lower priority gets something only when every demand of a higher one got all. */
  lemma PrioritiesAreStrict(input: Input, out: Allocation, i: nat, j: nat)
    requires Valid(input) && IsOutcome(input, out) && i < |out.remainders| && j < |out.remainders|
    requires Rank(out.remainders[i].demand.priority) < Rank(out.remainders[j].demand.priority)
    requires out.remainders[j].granted > 0
    ensures out.remainders[i].remaining == 0
  {
    var ds := InServingOrder(input.demands);
    SortedDemands(input);
    var tiers, last := OutcomeTiers(input, out);
    var remaining := Remaining(out.remainders);
    var a, b := Rank(ds[i].priority), Rank(ds[j].priority);
    PriorityIsListed(ds[i].priority);
    PriorityIsListed(ds[j].priority);
    assert ds[i] in ds && ds[j] in ds;
    TierStock(ds, input.storeOrder, input.stock, StartIndex(input), tiers, a, b);
    if tiers[b].stock == 0 {
      NoStockMeansUnserved(ds, input.storeOrder, tiers[b], remaining, j);
    }
    StockLeftMeansServed(ds, input.storeOrder, tiers[a], remaining, i);
  }

  /** P0A comes before P0B, P1, P2 and P3, each before those after it: while a demand gets anything, none of
  an earlier priority lacks anything. */
  lemma PrioritiesInOrder(input: Input, out: Allocation)
    requires Valid(input) && IsOutcome(input, out)
    ensures forall x, y :: x in out.remainders && y in out.remainders && y.granted > 0 && y.demand.priority != P0A ==>
      && (x.demand.priority == P0A ==> x.remaining == 0)
      && (x.demand.priority == P0B && y.demand.priority != P0B ==> x.remaining == 0)
      && (x.demand.priority == P1 && (y.demand.priority == P2 || y.demand.priority == P3) ==> x.remaining == 0)
      && (x.demand.priority == P2 && y.demand.priority == P3 ==> x.remaining == 0)
  {
    hide IsOutcome, Valid;
    forall x, y | x in out.remainders && y in out.remainders && y.granted > 0 && Rank(x.demand.priority) < Rank(y.demand.priority)
      ensures x.remaining == 0
    {
      var i :| 0 <= i < |out.remainders| && out.remainders[i] == x;
      var j :| 0 <= j < |out.remainders| && out.remainders[j] == y;
      PrioritiesAreStrict(input, out, i, j);
    }
  }

  /** Of two demands of a store and priority, the one with the smaller id is served first. */
  lemma SmallerIdIsServedFirst(input: Input, out: Allocation, i: nat, j: nat)
    requires Valid(input) && IsOutcome(input, out) && i < |out.remainders| && j < |out.remainders|
    requires var x, y := out.remainders[i].demand, out.remainders[j].demand;
      x.priority == y.priority && x.store == y.store && x.id < y.id
    requires out.remainders[j].granted > 0
    ensures out.remainders[i].remaining == 0
  {
    hide IsOutcome, InServingOrder, Served, StoreDemand, DemandOrder;
    var ds := InServingOrder(input.demands);
    RemaindersAre(input, out);
    ServedInOrder(input, i, j);
    DemandIsOnRing(input, i);
    var g := StoreUnits(input, out, ds[i].priority, ds[i].store);
    EarlierDemandFirst(ds, i, j, g);
  }

  lemma RemaindersAre(input: Input, out: Allocation)
    requires Valid(input) && IsOutcome(input, out)
    ensures |out.remainders| == |InServingOrder(input.demands)|
    ensures forall i :: 0 <= i < |out.remainders| ==>
      && out.remainders[i].demand == InServingOrder(input.demands)[i]
      && out.remainders[i].granted + out.remainders[i].remaining == out.remainders[i].demand.requested
  {
    hide Recorded, EndsAt, InServingOrder, Valid, Sum;
  }

  /** The units of a store in a priority, which its demands take in order. */
  lemma StoreUnits(input: Input, out: Allocation, p: Priority, store: Id) returns (g: nat)
    requires Valid(input) && IsOutcome(input, out) && store in input.storeOrder
    ensures |out.remainders| == |InServingOrder(input.demands)|
    ensures forall i :: 0 <= i < |out.remainders| && InGroup(InServingOrder(input.demands)[i], p, store) ==>
      out.remainders[i].granted == Served(InServingOrder(input.demands), i, g)
  {
    hide Recorded, InServingOrder, Served, StoreDemand, IsFill;
    var ds := InServingOrder(input.demands);
    var tiers: seq<Tier>, last: nat :| EndsAt(input, out, tiers, last);
    TierOf(input, out, tiers, last, p);
    var tier := tiers[Rank(p)];
    var r := RingCovers(input.storeOrder, tier.cursor, store);
    hide Explained, EndsAt, RingStore;
    g := tier.grants[r];
    forall i | 0 <= i < |out.remainders| && InGroup(ds[i], p, store) ensures out.remainders[i].granted == Served(ds, i, g) {
      assert Remaining(out.remainders)[i] == ds[i].requested - Served(ds, i, g);
    }
  }

  lemma DemandIsOnRing(input: Input, i: nat)
    requires Valid(input) && i < |InServingOrder(input.demands)|
    ensures InServingOrder(input.demands)[i].store in input.storeOrder
  {
    SortedDemands(input);
    hide InServingOrder;
    assert InServingOrder(input.demands)[i] in InServingOrder(input.demands);
  }

  /** The serving order of two demands of a store and priority is that of their ids. */
  lemma ServedInOrder(input: Input, i: nat, j: nat)
    requires Valid(input) && i < |InServingOrder(input.demands)| && j < |InServingOrder(input.demands)|
    requires var x, y := InServingOrder(input.demands)[i], InServingOrder(input.demands)[j];
      x.priority == y.priority && x.store == y.store && x.id < y.id
    ensures i < j
  {
    DemandOrderIsTotal();
    SortSorts(input.demands, DemandOrder);
    var ds := Sort(input.demands, DemandOrder);
    hide Sort;
    assert j < i ==> DemandOrder(ds[j], ds[i]);
  }

  lemma EarlierDemandFirst(ds: seq<Demand>, i: nat, j: nat, g: nat)
    requires i < j < |ds| && ds[i].priority == ds[j].priority && ds[i].store == ds[j].store && Served(ds, j, g) > 0
    ensures Served(ds, i, g) == ds[i].requested
  {
    StoreDemandStep(ds, i, ds[i].priority, ds[i].store);
    StoreDemandGrows(ds, i + 1, j, ds[i].priority, ds[i].store);
  }

  /** What is left over at the end was left over by every tier. */
  lemma LeftOverServesAll(input: Input, out: Allocation, i: nat)
    requires Valid(input) && IsOutcome(input, out) && i < |out.remainders| && out.granted < input.stock
    ensures out.remainders[i].remaining == 0
  {
    hide Recorded, InServingOrder, Sum, IsTier, Reflects, Advance, StoreDemand;
    var ds := InServingOrder(input.demands);
    SortedDemands(input);
    var tiers, last := OutcomeTiers(input, out);
    var a := Rank(ds[i].priority);
    PriorityIsListed(ds[i].priority);
    assert ds[i] in ds;
    var end := |tiers| - 1;
    assert Follows(input.storeOrder, tiers[end], input.stock - out.granted, last);
    if a < end {
      TierStock(ds, input.storeOrder, input.stock, StartIndex(input), tiers, a, end);
    }
    StockLeftMeansServed(ds, input.storeOrder, tiers[a], Remaining(out.remainders), i);
  }

  /** Exactly as much is allocated as stock and demand allow; every demand is split into what it got
  and what it still waits for. */
  lemma AllocationIsConserved(input: Input, out: Allocation)
    requires Valid(input) && IsOutcome(input, out)
    ensures out.granted == Min(input.stock, Sum(Requested(input.demands)))
    ensures Sum(Granted(out.remainders)) == out.granted
    ensures forall x :: x in out.remainders ==> x.granted + x.remaining == x.demand.requested
  {
    hide Recorded, EndsAt, InServingOrder, Valid;
    var ds := InServingOrder(input.demands);
    SortedDemands(input);
    SumPlus(Granted(out.remainders), Remaining(out.remainders), Requested(ds));
    SumIsTotal(ds);
    SumIsTotal(input.demands);
    TotalPermute(ds, input.demands, (d: Demand) => d.requested);
    if out.granted < input.stock {
      forall i | 0 <= i < |out.remainders| ensures Remaining(out.remainders)[i] == 0 {
        LeftOverServesAll(input, out, i);
      }
      SumZero(Remaining(out.remainders));
    }
  }

  lemma {:induction false} SumIsTotal(ds: seq<Demand>)
    ensures Sum(Requested(ds)) == Total(ds, (d: Demand) => d.requested)
  {
    if |ds| > 0 {
      SumIsTotal(ds[..|ds| - 1]);
      assert Requested(ds)[..|ds| - 1] == Requested(ds[..|ds| - 1]);
    }
  }

  // ---------------------------------------------------------------------------------------------
  // Fairness
  // ---------------------------------------------------------------------------------------------

  function UnitsOf(p: Priority, store: Id): Remainder -> nat {
    (x: Remainder) => if InGroup(x.demand, p, store) then x.granted else 0
  }

  /** What a store got in a priority. */
  function GrantedTo(remainders: seq<Remainder>, p: Priority, store: Id): nat {
    Total(remainders, UnitsOf(p, store))
  }

  /** The first demands of a store take its units until these run out. */
  lemma {:induction false} ServedTotal(ds: seq<Demand>, remainders: seq<Remainder>, p: Priority, store: Id, g: nat, n: nat)
    requires n <= |ds| == |remainders|
    requires forall i :: 0 <= i < |ds| ==> remainders[i].demand == ds[i]
    requires forall i :: 0 <= i < |ds| && InGroup(ds[i], p, store) ==> remainders[i].granted == Served(ds, i, g)
    ensures Total(remainders[..n], UnitsOf(p, store)) == Min(g, StoreDemand(ds[..n], p, store))
  {
    if n > 0 {
      ServedTotal(ds, remainders, p, store, g, n - 1);
      TotalTake(remainders, n - 1, UnitsOf(p, store));
      StoreDemandStep(ds, n - 1, p, store);
      hide Total, StoreDemand;
    }
  }

  /** The tier of a priority. */
  lemma TierOf(input: Input, out: Allocation, tiers: seq<Tier>, last: nat, p: Priority)
    requires Valid(input) && IsOutcome(input, out) && input.storeOrder != [] && EndsAt(input, out, tiers, last)
    ensures Rank(p) < |tiers|
    ensures IsTier(InServingOrder(input.demands), p, input.storeOrder, tiers[Rank(p)])
    ensures Reflects(InServingOrder(input.demands), p, input.storeOrder, tiers[Rank(p)], Remaining(out.remainders))
  {
    hide Recorded, InServingOrder, IsFill, Follows;
    PriorityIsListed(p);
    assert IsTier(InServingOrder(input.demands), PRIORITIES[Rank(p)], input.storeOrder, tiers[Rank(p)]);
  }

  /** A store's place in its tier tells what its demands of that priority got together. */
  lemma TierIsGranted(ds: seq<Demand>, remainders: seq<Remainder>, p: Priority, order: seq<Id>, tier: Tier, r: nat)
    requires IsTier(ds, p, order, tier) && |remainders| == |ds| && r < |order|
    requires forall i :: 0 <= i < |ds| ==>
      remainders[i].demand == ds[i] && remainders[i].granted + remainders[i].remaining == ds[i].requested
    requires Reflects(ds, p, order, tier, Remaining(remainders))
    ensures tier.grants[r] == GrantedTo(remainders, p, RingStore(order, tier.cursor, r))
  {
    hide Served, StoreDemand;
    var store := RingStore(order, tier.cursor, r);
    forall i | 0 <= i < |ds| && InGroup(ds[i], p, store) ensures remainders[i].granted == Served(ds, i, tier.grants[r]) {
      assert Remaining(remainders)[i] == ds[i].requested - Served(ds, i, tier.grants[r]);
    }
    assert tier.grants[r] <= RingClaims(ds, p, order, tier.cursor)[r];
    hide IsFill, Reflects, RingStore;
    ServedTotal(ds, remainders, p, store, tier.grants[r], |ds|);
    assert ds[..|ds|] == ds && remainders[..|ds|] == remainders;
  }

  /** Of two stores neither gets more than one unit more than the other in a priority, unless the other
  is left with no demand of that priority. */
  lemma StoresAreServedAlike(input: Input, out: Allocation, p: Priority, s: Id, t: Id)
    requires Valid(input) && IsOutcome(input, out) && s in input.storeOrder && t in input.storeOrder
    ensures GrantedTo(out.remainders, p, t) <= GrantedTo(out.remainders, p, s) + 1
         || forall x :: x in out.remainders && InGroup(x.demand, p, s) ==> x.remaining == 0
  {
    hide Recorded, InServingOrder, GrantedTo, Explained, Served, StoreDemand, Reflects;
    var ds, order := InServingOrder(input.demands), input.storeOrder;
    var tiers: seq<Tier>, last: nat :| EndsAt(input, out, tiers, last);
    TierOf(input, out, tiers, last, p);
    var tier := tiers[Rank(p)];
    var a := RingCovers(order, tier.cursor, s);
    var b := RingCovers(order, tier.cursor, t);
    TierIsGranted(ds, out.remainders, p, order, tier, a);
    TierIsGranted(ds, out.remainders, p, order, tier, b);
    var claims := RingClaims(ds, p, order, tier.cursor);
    if a < b {
      FillIsFair(claims, tier.stock, tier.grants, a, b);
    } else if b < a {
      FillIsFair(claims, tier.stock, tier.grants, b, a);
    }
    if tier.grants[b] > tier.grants[a] + 1 {
      forall x | x in out.remainders && InGroup(x.demand, p, s) ensures x.remaining == 0 {
        var i :| 0 <= i < |out.remainders| && out.remainders[i] == x;
        AllServedAt(ds, p, order, tier, Remaining(out.remainders), i, a);
      }
    }
  }

  /** A store whose units cover its claim is left with no demand. */
  lemma AllServedAt(ds: seq<Demand>, p: Priority, order: seq<Id>, tier: Tier, remaining: seq<nat>, i: nat, r: nat)
    requires IsTier(ds, p, order, tier) && |remaining| == |ds| && Reflects(ds, p, order, tier, remaining)
    requires i < |ds| && r < |order| && InGroup(ds[i], p, RingStore(order, tier.cursor, r))
    requires tier.grants[r] == RingClaims(ds, p, order, tier.cursor)[r]
    ensures remaining[i] == 0
  {
    ServedAll(ds, i);
  }

  // ---------------------------------------------------------------------------------------------
  // The ring
  // ---------------------------------------------------------------------------------------------

  lemma NoDemandNoClaims(ds: seq<Demand>, p: Priority, order: seq<Id>, cursor: nat)
    requires order != [] ==> cursor < |order|
    requires forall d :: d in ds ==> d.priority != p
    ensures Sum(RingClaims(ds, p, order, cursor)) == 0
  {
    forall r | 0 <= r < |order| ensures RingClaims(ds, p, order, cursor)[r] == 0 {
      assert forall i :: 0 <= i < |ds| ==> ds[i] in ds;
      TotalZero(ds, (d: Demand) => if d.priority == p && d.store == RingStore(order, cursor, r) then d.requested else 0);
    }
    SumZero(RingClaims(ds, p, order, cursor));
  }

  /** Priorities without demand take nothing and leave the cursor where it is. */
  lemma {:induction false} IdleTiers(ds: seq<Demand>, order: seq<Id>, stock: nat, first: nat, tiers: seq<Tier>, k: nat)
    requires AreTiers(ds, order, stock, first, tiers) && k < |tiers|
    requires forall d :: d in ds ==> k <= Rank(d.priority)
    ensures tiers[k].stock == stock && tiers[k].cursor == first
  {
    hide RingClaims;
    if k > 0 {
      IdleTiers(ds, order, stock, first, tiers, k - 1);
      var idle := tiers[k - 1];
      assert IsTier(ds, PRIORITIES[k - 1], order, idle) && Follows(order, idle, tiers[k].stock, tiers[k].cursor);
      PriorityIsListed(PRIORITIES[k - 1]);
      NoDemandNoClaims(ds, PRIORITIES[k - 1], order, idle.cursor);
      SumZero(idle.grants);
      assert Highest(idle.grants) == 0;
    }
  }

  /** The first priority with demand starts at the store under the cursor, at the first of the ring when
  there is none, and goes round from there: a store that comes earlier gets at least what a later one
  gets, up to what it asks for, and at most one unit more while the later one lacks something. */
  lemma RingStartsAtTheCursor(input: Input, out: Allocation, p: Priority, start: nat, a: nat, b: nat)
    requires Valid(input) && IsOutcome(input, out) && forall d :: d in input.demands ==> Rank(p) <= Rank(d.priority)
    requires start < |input.storeOrder|
    requires match input.startCursor case None => start == 0 case Some(store) => input.storeOrder[start] == store
    requires a < b < |input.storeOrder|
    ensures var s, t := input.storeOrder[(start + a) % |input.storeOrder|], input.storeOrder[(start + b) % |input.storeOrder|];
      && Min(StoreDemand(input.demands, p, s), GrantedTo(out.remainders, p, t)) <= GrantedTo(out.remainders, p, s)
      && (GrantedTo(out.remainders, p, s) <= GrantedTo(out.remainders, p, t) + 1
          || GrantedTo(out.remainders, p, t) == StoreDemand(input.demands, p, t))
  {
    hide IsOutcome, Valid, InServingOrder, IsFill, Served, Reflects, GrantedTo, RingStore;
    var ds, order := InServingOrder(input.demands), input.storeOrder;
    RemaindersAre(input, out);
    var tier := FirstTier(input, out, p, start);
    TierIsGranted(ds, out.remainders, p, order, tier, a);
    TierIsGranted(ds, out.remainders, p, order, tier, b);
    FillIsFair(RingClaims(ds, p, order, tier.cursor), tier.stock, tier.grants, a, b);
    AskedInAnyOrder(input, p, RingStore(order, start, a));
    AskedInAnyOrder(input, p, RingStore(order, start, b));
    RingPlace(order, start, a);
    RingPlace(order, start, b);
  }

  lemma RingPlace(order: seq<Id>, cursor: nat, r: nat)
    requires cursor < |order| && r < |order|
    ensures RingStore(order, cursor, r) == order[(cursor + r) % |order|]
  {
  }

  lemma FirstTier(input: Input, out: Allocation, p: Priority, start: nat) returns (tier: Tier)
    requires Valid(input) && IsOutcome(input, out) && forall d :: d in input.demands ==> Rank(p) <= Rank(d.priority)
    requires start < |input.storeOrder|
    requires match input.startCursor case None => start == 0 case Some(store) => input.storeOrder[start] == store
    ensures tier.cursor == start && IsTier(InServingOrder(input.demands), p, input.storeOrder, tier)
    ensures |out.remainders| == |InServingOrder(input.demands)|
    ensures Reflects(InServingOrder(input.demands), p, input.storeOrder, tier, Remaining(out.remainders))
  {
    hide Recorded, InServingOrder, IsFill, Served, Reflects;
    var ds := InServingOrder(input.demands);
    var tiers: seq<Tier>, last: nat :| EndsAt(input, out, tiers, last);
    SortedDemands(input);
    TierOf(input, out, tiers, last, p);
    IdleTiers(ds, input.storeOrder, input.stock, StartIndex(input), tiers, Rank(p));
    assert StartIndex(input) == start;
    tier := tiers[Rank(p)];
  }

  lemma AskedInAnyOrder(input: Input, p: Priority, store: Id)
    requires Valid(input)
    ensures StoreDemand(InServingOrder(input.demands), p, store) == StoreDemand(input.demands, p, store)
  {
    SortedDemands(input);
    TotalPermute(InServingOrder(input.demands), input.demands, (d: Demand) => if d.priority == p && d.store == store then d.requested else 0);
  }

  // ---------------------------------------------------------------------------------------------
  // One outcome only
  // ---------------------------------------------------------------------------------------------

  lemma {:induction false} SameTiers(ds: seq<Demand>, order: seq<Id>, stock: nat, first: nat, a: seq<Tier>, b: seq<Tier>, n: nat)
    requires AreTiers(ds, order, stock, first, a) && AreTiers(ds, order, stock, first, b)
    requires n <= |a| == |b|
    ensures a[..n] == b[..n]
  {
    hide IsFill, Advance, RingClaims, Sum;
    if n > 0 {
      SameTiers(ds, order, stock, first, a, b, n - 1);
      var k := n - 1;
      if k > 0 {
        assert a[k - 1] == a[..k][k - 1] && b[k - 1] == b[..k][k - 1];
        assert Follows(order, a[k - 1], a[k].stock, a[k].cursor) && Follows(order, b[k - 1], b[k].stock, b[k].cursor);
      }
      FillIsUnique(RingClaims(ds, PRIORITIES[k], order, a[k].cursor), a[k].stock, a[k].grants, b[k].grants);
      assert a[..n] == a[..k] + [a[k]] && b[..n] == b[..k] + [b[k]];
    }
  }

  lemma SameRemaining(ds: seq<Demand>, order: seq<Id>, tiers: seq<Tier>, a: seq<nat>, b: seq<nat>)
    requires |a| == |ds| == |b| && |tiers| == |PRIORITIES|
    requires forall d :: d in ds ==> d.store in order
    requires AllReflect(ds, order, tiers, a) && AllReflect(ds, order, tiers, b)
    ensures a == b
  {
    forall i | 0 <= i < |ds| ensures a[i] == b[i] {
      PriorityIsListed(ds[i].priority);
      var tier := tiers[Rank(ds[i].priority)];
      assert ds[i] in ds;
      var r := RingCovers(order, tier.cursor, ds[i].store);
      assert Reflects(ds, ds[i].priority, order, tier, a) && Reflects(ds, ds[i].priority, order, tier, b);
    }
  }

  lemma DemandOrderIsTotal()
    ensures TotalPreorder(DemandOrder)
  {
  }

  lemma SameSortedDemands(a: Input, b: Input)
    requires Valid(a) && Valid(b) && multiset(a.demands) == multiset(b.demands)
    ensures InServingOrder(a.demands) == InServingOrder(b.demands)
  {
    DemandOrderIsTotal();
    assert NoTies(a.demands, DemandOrder) by {
      forall x, y | x in a.demands && y in a.demands && DemandOrder(x, y) && DemandOrder(y, x) ensures x == y {
        var i :| 0 <= i < |a.demands| && a.demands[i] == x;
        var j :| 0 <= j < |a.demands| && a.demands[j] == y;
        assert x.id == y.id;
      }
    }
    SortIgnoresInputOrder(a.demands, b.demands, DemandOrder);
  }

  lemma SameExplanation(ds: seq<Demand>, order: seq<Id>, stock: nat, first: nat, tiers: seq<Tier>, tiers': seq<Tier>,
                        remaining: seq<nat>, remaining': seq<nat>, left: nat, left': nat, last: nat, last': nat)
    requires |remaining| == |ds| == |remaining'|
    requires forall d :: d in ds ==> d.store in order
    requires Explained(ds, order, stock, first, tiers, remaining, left, last)
    requires Explained(ds, order, stock, first, tiers', remaining', left', last')
    ensures remaining == remaining' && left == left' && last == last'
  {
    SameTiers(ds, order, stock, first, tiers, tiers', |tiers|);
    assert tiers[..|tiers|] == tiers && tiers'[..|tiers|] == tiers';
    hide AreTiers, Sum, Advance;
    SameRemaining(ds, order, tiers, remaining, remaining');
  }

  lemma SameReport(ds: seq<Demand>, a: seq<Remainder>, b: seq<Remainder>)
    requires |a| == |ds| == |b| && Remaining(a) == Remaining(b)
    requires forall i :: 0 <= i < |ds| ==> a[i].demand == ds[i] && a[i].granted + a[i].remaining == ds[i].requested
    requires forall i :: 0 <= i < |ds| ==> b[i].demand == ds[i] && b[i].granted + b[i].remaining == ds[i].requested
    ensures a == b
  {
    forall i | 0 <= i < |ds| ensures a[i] == b[i] {
      assert Remaining(a)[i] == Remaining(b)[i];
    }
  }

  /** Stock, ring, cursor and the set of demands determine what every demand gets and where the next
  run starts; the order in which the demands are given does not matter. */
  lemma OutcomeIsUnique(a: Input, b: Input, x: Allocation, y: Allocation)
    requires Valid(a) && Valid(b) && IsOutcome(a, x) && IsOutcome(b, y)
    requires multiset(a.demands) == multiset(b.demands)
    requires a.stock == b.stock && a.storeOrder == b.storeOrder && a.startCursor == b.startCursor
    ensures x.remainders == y.remainders && x.granted == y.granted && x.nextCursor == y.nextCursor
  {
    hide Recorded, Explained, InServingOrder;
    SameSortedDemands(a, b);
    SortedDemands(a);
    var ds := InServingOrder(a.demands);
    if a.storeOrder != [] {
      var tiers, last :| EndsAt(a, x, tiers, last);
      var tiers', last' :| EndsAt(b, y, tiers', last');
      SameExplanation(ds, a.storeOrder, a.stock, StartIndex(a), tiers, tiers', Remaining(x.remainders),
                      Remaining(y.remainders), a.stock - x.granted, a.stock - y.granted, last, last');
    } else {
      assert ds == [] by { if ds != [] { HasMember(ds); } }
    }
    SameReport(ds, x.remainders, y.remainders);
  }

  // ---------------------------------------------------------------------------------------------
  // Steps
  // ---------------------------------------------------------------------------------------------

  function StepsFor(steps: seq<Step>, demand: Id): seq<Step> {
    Filter(steps, (s: Step) => s.demand == demand)
  }

  lemma {:induction false} StepsForCount(steps: seq<Step>, demand: Id)
    ensures |StepsFor(steps, demand)| == StepCount(steps, demand)
  {
    if |steps| > 0 {
      StepsForCount(steps[..|steps| - 1], demand);
    }
  }

  /** Steps of one demand keep their order, so their rounds rise. */
  lemma {:induction false} StepsForRise(steps: seq<Step>, demand: Id, d: Demand)
    requires OnePerRound(steps)
    requires forall s :: s in steps && s.demand == demand ==> StepOf(d, s)
    ensures forall i, j :: 0 <= i < j < |StepsFor(steps, demand)| ==>
      StepsFor(steps, demand)[i].round < StepsFor(steps, demand)[j].round
    ensures forall s :: s in StepsFor(steps, demand) ==> s in steps && s.demand == demand
  {
    if |steps| > 0 {
      var front, last := steps[..|steps| - 1], steps[|steps| - 1];
      assert steps == front + [last];
      assert OnePerRound(front);
      StepsForRise(front, demand, d);
      var mine := StepsFor(front, demand);
      assert StepsFor(steps, demand) == if last.demand == demand then mine + [last] else mine;
      if last.demand == demand {
        RoundsBefore(steps, mine, demand, d);
      }
      hide StepsFor, OnePerRound, StepOf;
    }
  }

  /** The last step comes in a later round than the demand's earlier steps. */
  lemma RoundsBefore(steps: seq<Step>, mine: seq<Step>, demand: Id, d: Demand)
    requires OnePerRound(steps) && steps != [] && steps[|steps| - 1].demand == demand
    requires forall s :: s in steps && s.demand == demand ==> StepOf(d, s)
    requires forall s :: s in mine ==> s in steps[..|steps| - 1] && s.demand == demand
    ensures forall i :: 0 <= i < |mine| ==> mine[i].round < steps[|steps| - 1].round
  {
    var front, last := steps[..|steps| - 1], steps[|steps| - 1];
    forall i | 0 <= i < |mine| ensures mine[i].round < last.round {
      assert mine[i] in mine;
      var k :| 0 <= k < |front| && front[k] == mine[i];
      assert steps[k] == mine[i] && steps[k] in steps && last in steps;
      assert StepOf(d, mine[i]) && StepOf(d, last);
    }
  }

  /** The steps recorded for a demand are as many as it was granted, and no two of them share a
  round; so neither the planner-metadata check nor the audit-round check of the worker can fail. */
  lemma StepsMatchGrants(input: Input, out: Allocation, i: nat)
    requires Valid(input) && IsOutcome(input, out) && i < |out.remainders|
    ensures var steps := StepsFor(out.steps, out.remainders[i].demand.id);
      && |steps| == out.remainders[i].granted
      && (forall a, b :: 0 <= a < b < |steps| ==> steps[a].round < steps[b].round)
      && (forall s :: s in steps ==> s.round > 0 && s.priority == out.remainders[i].demand.priority
                                     && s.store == out.remainders[i].demand.store)
  {
    var ds := InServingOrder(input.demands);
    SortedDemands(input);
    StepsForCount(out.steps, ds[i].id);
    forall s | s in out.steps && s.demand == ds[i].id ensures StepOf(ds[i], s) {
      var d :| d in ds && StepOf(d, s);
    }
    StepsForRise(out.steps, ds[i].id, ds[i]);
  }
}
