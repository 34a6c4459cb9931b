/** The final allocation of one product: strict priorities, and within a priority one unit per store
per round around a persistent ring of stores.

`AllocateInventory` is the program; `IsOutcome` describes its result without any rounds: tier by
tier, each store's total is a water level over the ring starting at the cursor, a store's total
goes to its demands in order, and the cursor ends behind the store served last. */
module Allocation {
  import opened Common
  import opened Quantities
  import opened WaterFill
  import opened Ordering

  datatype Priority = P0A | P0B | P1 | P2 | P3

  const PRIORITIES: seq<Priority> := [P0A, P0B, P1, P2, P3]

  function Rank(p: Priority): nat {
    match p
    case P0A => 0
    case P0B => 1
    case P1 => 2
    case P2 => 3
    case P3 => 4
  }

  /** A demand for one product; `ticket` is set exactly for a confirmed wait. */
  datatype Source = OrderRequest | Policy | ConfirmedWait(ticket: Id)

  datatype Demand = Demand(id: Id, store: Id, requested: nat, priority: Priority, source: Source)

  datatype Step = Step(priority: Priority, round: nat, store: Id, demand: Id)

  datatype Remainder = Remainder(demand: Demand, granted: nat, remaining: nat)

  datatype Input = Input(stock: nat, demands: seq<Demand>, storeOrder: seq<Id>, startCursor: Option<Id>)

  datatype Allocation = Allocation(granted: nat, remainders: seq<Remainder>, steps: seq<Step>, nextCursor: Option<Id>)

  datatype Result = Success(value: Allocation) | InvalidArgument

  // ---------------------------------------------------------------------------------------------
  // Validation
  // ---------------------------------------------------------------------------------------------

  predicate DistinctIds(ids: seq<Id>) {
    forall i, j :: 0 <= i < j < |ids| ==> ids[i] != ids[j]
  }

  /** What the allocator checks before it starts. */
  predicate Valid(input: Input) {
    && (forall d :: d in input.demands ==> d.requested > 0 && (d.priority == P0A <==> d.source.ConfirmedWait?))
    && (forall i, j :: 0 <= i < j < |input.demands| ==> input.demands[i].id != input.demands[j].id)
    && DistinctIds(input.storeOrder)
    && (forall d :: d in input.demands ==> d.store in input.storeOrder)
    && (input.startCursor.Some? ==> input.startCursor.value in input.storeOrder)
  }

  predicate DemandOrder(a: Demand, b: Demand) {
    if a.priority != b.priority then Rank(a.priority) < Rank(b.priority)
    else if a.store != b.store then a.store < b.store
    else a.id <= b.id
  }

  function InServingOrder(demands: seq<Demand>): (ds: seq<Demand>)
    ensures |ds| == |demands|
  {
    SortPermutes(demands, DemandOrder);
    SameElements(Sort(demands, DemandOrder), demands);
    Sort(demands, DemandOrder)
  }

  // ---------------------------------------------------------------------------------------------
  // The ring
  // ---------------------------------------------------------------------------------------------

  /** `x` modulo `n`, for positions at most one turn ahead. */
  function Wrap(x: nat, n: nat): (r: nat)
    requires x < 2 * n
    ensures r < n
    ensures r == x % n
  {
    ModWrap(x, n);
    if x < n then x else x - n
  }

  lemma ModWrap(x: nat, n: nat)
    requires x < 2 * n
    ensures x % n == if x < n then x else x - n
  {
    if x >= n {
      assert x == 1 * n + (x - n);
      assert x / n == 1;
    }
  }

  /** The store `r` places behind the cursor. */
  function RingStore(order: seq<Id>, cursor: nat, r: nat): Id
    requires cursor < |order| && r < |order|
  {
    order[Wrap(cursor + r, |order|)]
  }

  /** What a store demands in a tier. */
  function StoreDemand(ds: seq<Demand>, p: Priority, store: Id): nat {
    Total(ds, (d: Demand) => if d.priority == p && d.store == store then d.requested else 0)
  }

  function RingClaims(ds: seq<Demand>, p: Priority, order: seq<Id>, cursor: nat): (claims: seq<nat>)
    requires order != [] ==> cursor < |order|
    ensures |claims| == |order|
  {
    seq(|order|, r requires 0 <= r < |order| => StoreDemand(ds, p, RingStore(order, cursor, r)))
  }

  /** What demand `i` gets when its store gets `g` in its tier: demands of a store are served in order. */
  function Served(ds: seq<Demand>, i: nat, g: nat): (r: nat)
    requires i < |ds|
    ensures r <= ds[i].requested
  {
    Min(ds[i].requested, Monus(g, StoreDemand(ds[..i], ds[i].priority, ds[i].store)))
  }

  function Highest(g: seq<nat>): (m: nat)
    ensures forall r :: 0 <= r < |g| ==> g[r] <= m
    ensures m > 0 ==> exists r :: 0 <= r < |g| && g[r] == m
  {
    if |g| == 0 then 0
    else
      var before := Highest(g[..|g| - 1]);
      assert forall r :: 0 <= r < |g| - 1 ==> g[r] == g[..|g| - 1][r];
      if g[|g| - 1] > before then g[|g| - 1] else before
  }

  /** The place behind the last store among those with most units: where the last unit went. */
  function Behind(g: seq<nat>, most: nat): (d: nat)
    ensures d <= |g|
    ensures d > 0 ==> g[d - 1] == most
    ensures forall r :: d <= r < |g| ==> g[r] != most
  {
    if |g| == 0 then 0
    else if g[|g| - 1] == most then |g|
    else
      assert forall r :: 0 <= r < |g| - 1 ==> g[r] == g[..|g| - 1][r];
      Behind(g[..|g| - 1], most)
  }

  function Advance(g: seq<nat>): (d: nat)
    ensures d <= |g|
  {
    if Highest(g) == 0 then 0 else Behind(g, Highest(g))
  }

  // ---------------------------------------------------------------------------------------------
  // The outcome
  // ---------------------------------------------------------------------------------------------

  /** One priority: the stock it starts with, the cursor it starts at, and what each store gets,
  counted around the ring from that cursor. */
  datatype Tier = Tier(stock: nat, cursor: nat, grants: seq<nat>)

  /** The demands of tier `p` got what their stores' grants say. */
  ghost predicate Reflects(ds: seq<Demand>, p: Priority, order: seq<Id>, tier: Tier, remaining: seq<nat>)
    requires |remaining| == |ds| && |tier.grants| == |order| && tier.cursor < |order|
  {
    forall i, r :: 0 <= i < |ds| && 0 <= r < |order| && ds[i].priority == p && ds[i].store == RingStore(order, tier.cursor, r) ==>
      remaining[i] == ds[i].requested - Served(ds, i, tier.grants[r])
  }

  ghost predicate IsTier(ds: seq<Demand>, p: Priority, order: seq<Id>, tier: Tier) {
    && tier.cursor < |order|
    && |tier.grants| == |order|
    && IsFill(RingClaims(ds, p, order, tier.cursor), tier.stock, tier.grants)
  }

  /** The tier after `tier` starts with what is left, behind the store served last. */
  ghost predicate Follows(order: seq<Id>, tier: Tier, stock: nat, cursor: nat)
    requires tier.cursor < |order| && |tier.grants| == |order|
  {
    && stock + Sum(tier.grants) == tier.stock
    && cursor == Wrap(tier.cursor + Advance(tier.grants), |order|)
  }

  /** The first `k` priorities were served like this, starting at `cursor` with `stock`. */
  ghost predicate AreTiers(ds: seq<Demand>, order: seq<Id>, stock: nat, cursor: nat, tiers: seq<Tier>) {
    && |tiers| <= |PRIORITIES|
    && (forall k :: 0 <= k < |tiers| ==> IsTier(ds, PRIORITIES[k], order, tiers[k]))
    && (|tiers| > 0 ==> tiers[0].stock == stock && tiers[0].cursor == cursor)
    && (forall k :: 0 < k < |tiers| ==> Follows(order, tiers[k - 1], tiers[k].stock, tiers[k].cursor))
  }

  // ---------------------------------------------------------------------------------------------
  // One unit
  // ---------------------------------------------------------------------------------------------

  predicate InGroup(d: Demand, p: Priority, store: Id) {
    d.priority == p && d.store == store
  }

  lemma StoreDemandStep(ds: seq<Demand>, i: nat, p: Priority, store: Id)
    requires i < |ds|
    ensures StoreDemand(ds[..i + 1], p, store)
         == StoreDemand(ds[..i], p, store) + if InGroup(ds[i], p, store) then ds[i].requested else 0
  {
    assert ds[..i + 1][..i] == ds[..i];
  }

  lemma {:induction false} StoreDemandGrows(ds: seq<Demand>, i: nat, j: nat, p: Priority, store: Id)
    requires i <= j <= |ds|
    ensures StoreDemand(ds[..i], p, store) <= StoreDemand(ds[..j], p, store)
    decreases j - i
  {
    if i < j {
      StoreDemandGrows(ds, i + 1, j, p, store);
      StoreDemandStep(ds, i, p, store);
    }
  }

  /** The store's first demand with something left, or `|ds|`. */
  method FindOpen(ds: seq<Demand>, p: Priority, store: Id, remaining: seq<nat>, ghost g: nat) returns (i: nat)
    requires |remaining| == |ds|
    requires forall k :: 0 <= k < |ds| && InGroup(ds[k], p, store) ==>
      remaining[k] == ds[k].requested - Served(ds, k, g)
    ensures i <= |ds|
    ensures i == |ds| ==> StoreDemand(ds, p, store) <= g
    ensures i < |ds| ==> InGroup(ds[i], p, store) && remaining[i] > 0
    ensures i < |ds| ==> StoreDemand(ds[..i], p, store) <= g < StoreDemand(ds[..i], p, store) + ds[i].requested
  {
    i := 0;
    while i < |ds|
      invariant i <= |ds|
      invariant StoreDemand(ds[..i], p, store) <= g
    {
      if InGroup(ds[i], p, store) && remaining[i] > 0 { return; }
      StoreDemandStep(ds, i, p, store);
      i := i + 1;
    }
    assert ds[..|ds|] == ds;
  }

  /** One more unit for a store goes to the demand found open, and to no other. */
  lemma OneMoreServed(ds: seq<Demand>, p: Priority, store: Id, i: nat, g: nat, k: nat)
    requires i < |ds| && InGroup(ds[i], p, store)
    requires StoreDemand(ds[..i], p, store) <= g < StoreDemand(ds[..i], p, store) + ds[i].requested
    requires k < |ds| && InGroup(ds[k], p, store)
    ensures Served(ds, k, g + 1) == Served(ds, k, g) + if k == i then 1 else 0
    ensures g < StoreDemand(ds, p, store)
  {
    StoreDemandStep(ds, i, p, store);
    StoreDemandGrows(ds, i + 1, |ds|, p, store);
    assert ds[..|ds|] == ds;
    if k < i {
      StoreDemandStep(ds, k, p, store);
      StoreDemandGrows(ds, k + 1, i, p, store);
    } else if i < k {
      StoreDemandGrows(ds, i + 1, k, p, store);
    }
  }

  lemma RingDistinct(order: seq<Id>, cursor: nat, r: nat, r': nat)
    requires DistinctIds(order) && cursor < |order| && r < |order| && r' < |order|
    requires RingStore(order, cursor, r) == RingStore(order, cursor, r')
    ensures r == r'
  {
  }

  // ---------------------------------------------------------------------------------------------
  // One round
  // ---------------------------------------------------------------------------------------------

  lemma AdvanceAt(g: seq<nat>, r: nat, most: nat)
    requires r < |g| && g[r] == most > 0
    requires forall x :: 0 <= x < |g| ==> g[x] <= most
    requires forall x :: r < x < |g| ==> g[x] < most
    ensures Advance(g) == r + 1
  {
  }

  /** Position `o` of a round that starts `e` places behind the tier's cursor. */
  function Place(e: nat, o: nat, n: nat): nat
    requires 0 < e <= n && o < n
  {
    if e + o < n then e + o else e + o - n
  }

  /** The turn at which place `r` is visited in such a round. */
  function Turn(e: nat, r: nat, n: nat): nat
    requires 0 < e <= n && r < n
  {
    if r >= e then r - e else r + n - e
  }

  function StepCount(steps: seq<Step>, demand: Id): nat {
    Total(steps, (s: Step) => if s.demand == demand then 1 else 0)
  }

  /** At most one unit per store, priority and round, in round order. */
  ghost predicate OnePerRound(steps: seq<Step>) {
    forall a, b :: 0 <= a < b < |steps| && steps[a].priority == steps[b].priority && steps[a].store == steps[b].store ==>
      steps[a].round < steps[b].round
  }

  ghost predicate Counted(ds: seq<Demand>, remaining: seq<nat>, steps: seq<Step>)
    requires |remaining| == |ds|
  {
    forall i :: 0 <= i < |ds| ==>
      remaining[i] <= ds[i].requested && StepCount(steps, ds[i].id) == ds[i].requested - remaining[i]
  }

  ghost predicate StepOf(d: Demand, s: Step) {
    d.id == s.demand && d.store == s.store && d.priority == s.priority
  }

  /** Every step carries the store and the priority of a demand. */
  ghost predicate Attributed(ds: seq<Demand>, steps: seq<Step>) {
    forall s :: s in steps ==> s.round > 0 && exists d :: d in ds && StepOf(d, s)
  }

  ghost predicate Recorded(ds: seq<Demand>, remaining: seq<nat>, steps: seq<Step>)
    requires |remaining| == |ds|
  {
    Counted(ds, remaining, steps) && Attributed(ds, steps) && OnePerRound(steps)
  }

  ghost predicate UniqueDemands(ds: seq<Demand>) {
    forall i, j :: 0 <= i < j < |ds| ==> ds[i].id != ds[j].id
  }

  lemma CountUnit(ds: seq<Demand>, remaining: seq<nat>, steps: seq<Step>, i: nat, step: Step)
    requires UniqueDemands(ds) && |remaining| == |ds| && Counted(ds, remaining, steps)
    requires i < |ds| && remaining[i] > 0 && step.demand == ds[i].id
    ensures Counted(ds, remaining[i := remaining[i] - 1], steps + [step])
  {
    forall k | 0 <= k < |ds|
      ensures StepCount(steps + [step], ds[k].id) == ds[k].requested - remaining[i := remaining[i] - 1][k]
    {
      TotalPush(steps, step, (s: Step) => if s.demand == ds[k].id then 1 else 0);
    }
  }

  lemma RecordUnit(ds: seq<Demand>, remaining: seq<nat>, steps: seq<Step>, i: nat, step: Step)
    requires UniqueDemands(ds) && |remaining| == |ds| && Recorded(ds, remaining, steps)
    requires i < |ds| && remaining[i] > 0 && step.round > 0 && StepOf(ds[i], step)
    requires forall s :: s in steps && s.priority == step.priority && s.store == step.store ==> s.round < step.round
    ensures Recorded(ds, remaining[i := remaining[i] - 1], steps + [step])
  {
    CountUnit(ds, remaining, steps, i, step);
    forall s | s in steps + [step] ensures s.round > 0 && exists d :: d in ds && StepOf(d, s) {
      if s !in steps {
        assert ds[i] in ds && StepOf(ds[i], s);
      }
    }
  }

  /** What the loops carry along. */
  datatype Run = Run(remaining: seq<nat>, available: nat, cursor: nat, steps: seq<Step>)

  /** Within tier `p`, counted from `cursor`, the stores have `g` so far; `before` is where the tier began. */
  ghost predicate Serving(ds: seq<Demand>, p: Priority, order: seq<Id>, cursor: nat, g: seq<nat>, before: Run, run: Run) {
    && cursor < |order| && |g| == |order|
    && |before.remaining| == |ds| == |run.remaining|
    && Reflects(ds, p, order, Tier(0, cursor, g), run.remaining)
    && (forall i :: 0 <= i < |ds| && ds[i].priority != p ==> run.remaining[i] == before.remaining[i])
    && run.available + Sum(g) == before.available
    && Sum(run.remaining) + Sum(g) == Sum(before.remaining)
    && Recorded(ds, run.remaining, run.steps)
  }

  /** The rounds of the steps of tier `p`, store by store. */
  ghost predicate RoundsUpTo(order: seq<Id>, p: Priority, cursor: nat, steps: seq<Step>, limits: seq<nat>)
    requires cursor < |order| == |limits|
  {
    forall s, r :: s in steps && 0 <= r < |order| && s.priority == p && s.store == RingStore(order, cursor, r) ==>
      s.round <= limits[r]
  }

  lemma ReflectUnit(ds: seq<Demand>, p: Priority, order: seq<Id>, cursor: nat, g: seq<nat>, remaining: seq<nat>, r: nat, i: nat)
    requires DistinctIds(order) && cursor < |order| == |g| && |remaining| == |ds|
    requires Reflects(ds, p, order, Tier(0, cursor, g), remaining)
    requires r < |order| && i < |ds| && remaining[i] > 0
    requires InGroup(ds[i], p, RingStore(order, cursor, r))
    requires var d := StoreDemand(ds[..i], p, RingStore(order, cursor, r)); d <= g[r] < d + ds[i].requested
    ensures Reflects(ds, p, order, Tier(0, cursor, g[r := g[r] + 1]), remaining[i := remaining[i] - 1])
  {
    var g', remaining' := g[r := g[r] + 1], remaining[i := remaining[i] - 1];
    forall k, x | 0 <= k < |ds| && 0 <= x < |order| && ds[k].priority == p && ds[k].store == RingStore(order, cursor, x)
      ensures remaining'[k] == ds[k].requested - Served(ds, k, g'[x])
    {
      if x == r {
        OneMoreServed(ds, p, RingStore(order, cursor, r), i, g[r], k);
      } else if ds[k].store == ds[i].store {
        RingDistinct(order, cursor, x, r);
      }
    }
  }

  lemma GroupReflects(ds: seq<Demand>, p: Priority, order: seq<Id>, cursor: nat, g: seq<nat>, before: Run, run: Run, r: nat)
    requires Serving(ds, p, order, cursor, g, before, run) && r < |order|
    ensures |run.remaining| == |ds| && |g| == |order|
    ensures forall k :: 0 <= k < |ds| && InGroup(ds[k], p, RingStore(order, cursor, r)) ==>
      run.remaining[k] == ds[k].requested - Served(ds, k, g[r])
  {
    hide Recorded;
  }

  lemma GrantUnit(ds: seq<Demand>, p: Priority, order: seq<Id>, cursor: nat, g: seq<nat>, before: Run, run: Run,
                  r: nat, i: nat, step: Step, cursor': nat)
    requires UniqueDemands(ds) && DistinctIds(order)
    requires Serving(ds, p, order, cursor, g, before, run) && run.available > 0
    requires r < |order| && i < |ds| && run.remaining[i] > 0
    requires InGroup(ds[i], p, RingStore(order, cursor, r))
    requires var d := StoreDemand(ds[..i], p, RingStore(order, cursor, r)); d <= g[r] < d + ds[i].requested
    requires StepOf(ds[i], step) && step.round > 0
    requires forall s :: s in run.steps && s.priority == p && s.store == step.store ==> s.round < step.round
    ensures Serving(ds, p, order, cursor, g[r := g[r] + 1], before,
                    Run(run.remaining[i := run.remaining[i] - 1], run.available - 1, cursor', run.steps + [step]))
  {
    hide Recorded, Reflects;
    SumSet(g, r, g[r] + 1);
    SumSet(run.remaining, i, run.remaining[i] - 1);
    RecordUnit(ds, run.remaining, run.steps, i, step);
    ReflectUnit(ds, p, order, cursor, g, run.remaining, r, i);
  }

  /** The store at place `r` gets one unit if it has an open demand. */
  method ServeStore(ds: seq<Demand>, p: Priority, order: seq<Id>, round: nat, storeIndex: nat, start: Run,
                    ghost cursor: nat, ghost r: nat, ghost g0: seq<nat>, ghost before: Run)
    returns (run: Run, ghost g: seq<nat>)
    requires UniqueDemands(ds) && DistinctIds(order) && cursor < |order| == |g0| && |start.remaining| == |ds|
    requires Serving(ds, p, order, cursor, g0, before, start)
    requires start.available > 0 && round > 0
    requires r < |order| && storeIndex == Wrap(cursor + r, |order|)
    requires forall s :: s in start.steps && s.priority == p && s.store == order[storeIndex] ==> s.round < round
    ensures |g| == |order| && |run.remaining| == |ds| && Serving(ds, p, order, cursor, g, before, run)
    ensures g0[r] >= RingClaims(ds, p, order, cursor)[r] ==> g == g0 && run == start
    ensures g0[r] < RingClaims(ds, p, order, cursor)[r] ==>
      && g == g0[r := g0[r] + 1]
      && run.available == start.available - 1
      && run.cursor == Wrap(storeIndex + 1, |order|)
      && exists d :: run.steps == start.steps + [Step(p, round, order[storeIndex], d)]
  {
    hide Serving;
    var store := order[storeIndex];
    GroupReflects(ds, p, order, cursor, g0, before, start, r);
    var i := FindOpen(ds, p, store, start.remaining, g0[r]);
    if i == |ds| {
      return start, g0;
    }
    OneMoreServed(ds, p, store, i, g0[r], i);
    var step := Step(p, round, store, ds[i].id);
    GrantUnit(ds, p, order, cursor, g0, before, start, r, i, step, Wrap(storeIndex + 1, |order|));
    g := g0[r := g0[r] + 1];
    run := Run(start.remaining[i := start.remaining[i] - 1], start.available - 1, Wrap(storeIndex + 1, |order|), start.steps + [step]);
  }

  /** The rounds reached at the places visited by turn `o` of a round that starts at place `e`. */
  function RoundLimits(round: nat, e: nat, o: nat, n: nat): (limits: seq<nat>)
    requires 0 < e <= n && round > 0
    ensures |limits| == n
  {
    seq(n, r requires 0 <= r < n => if Turn(e, r, n) < o then round else round - 1)
  }

  /** The ring, the tier and the place where the current round starts. */
  ghost predicate RoundAt(ds: seq<Demand>, p: Priority, order: seq<Id>, cursor: nat, round: nat, e: nat) {
    && cursor < |order| && 0 < e <= |order| && round > 0
    && forall r :: e <= r < |order| ==> RingClaims(ds, p, order, cursor)[r] < round
  }

  /** The grants once `o` places of the round were visited. */
  ghost predicate MidRound(ds: seq<Demand>, p: Priority, order: seq<Id>, cursor: nat, round: nat, e: nat, o: nat,
                           g: seq<nat>, steps: seq<Step>)
    requires RoundAt(ds, p, order, cursor, round, e)
  {
    && g == AtLevel(RingClaims(ds, p, order, cursor), round - 1, Monus(o + e, |order|))
    && RoundsUpTo(order, p, cursor, steps, RoundLimits(round, e, o, |order|))
  }

  /** Visiting the next place keeps the grants a water level and the rounds in order. */
  lemma NextPlace(ds: seq<Demand>, p: Priority, order: seq<Id>, cursor: nat, round: nat, e: nat, o: nat,
                  g: seq<nat>, steps: seq<Step>, g': seq<nat>, steps': seq<Step>)
    requires DistinctIds(order)
    requires RoundAt(ds, p, order, cursor, round, e) && o < |order|
    requires MidRound(ds, p, order, cursor, round, e, o, g, steps)
    requires var r := Place(e, o, |order|);
      if g[r] < RingClaims(ds, p, order, cursor)[r]
      then g' == g[r := g[r] + 1] && exists d :: steps' == steps + [Step(p, round, RingStore(order, cursor, r), d)]
      else g' == g && steps' == steps
    ensures MidRound(ds, p, order, cursor, round, e, o + 1, g', steps')
    ensures g' != g ==> Advance(g') == Place(e, o, |order|) + 1
  {
    var r := Place(e, o, |order|);
    NextLevel(RingClaims(ds, p, order, cursor), round, e, o, g, g', r);
    NextLimits(order, p, cursor, round, e, o, steps, steps', r, g' != g);
  }

  lemma NextLevel(claims: seq<nat>, round: nat, e: nat, o: nat, g: seq<nat>, g': seq<nat>, r: nat)
    requires 0 < e <= |claims| && o < |claims| && round > 0 && r == Place(e, o, |claims|)
    requires forall x :: e <= x < |claims| ==> claims[x] < round
    requires g == AtLevel(claims, round - 1, Monus(o + e, |claims|))
    requires g' == if g[r] < claims[r] then g[r := g[r] + 1] else g
    ensures g' == AtLevel(claims, round - 1, Monus(o + 1 + e, |claims|))
    ensures g' != g ==> Advance(g') == r + 1
  {
    var next := AtLevel(claims, round - 1, Monus(o + 1 + e, |claims|));
    forall x | 0 <= x < |claims| ensures g'[x] == next[x] {
    }
    if g' != g {
      AdvanceAt(g', r, round);
    }
  }

  lemma NextLimits(order: seq<Id>, p: Priority, cursor: nat, round: nat, e: nat, o: nat,
                   steps: seq<Step>, steps': seq<Step>, r: nat, served: bool)
    requires DistinctIds(order) && cursor < |order| && 0 < e <= |order| && o < |order| && round > 0
    requires r == Place(e, o, |order|)
    requires RoundsUpTo(order, p, cursor, steps, RoundLimits(round, e, o, |order|))
    requires if served then exists d :: steps' == steps + [Step(p, round, RingStore(order, cursor, r), d)] else steps' == steps
    ensures RoundsUpTo(order, p, cursor, steps', RoundLimits(round, e, o + 1, |order|))
  {
    forall s, x | s in steps' && 0 <= x < |order| && s.priority == p && s.store == RingStore(order, cursor, x)
      ensures s.round <= RoundLimits(round, e, o + 1, |order|)[x]
    {
      if s in steps {
        assert s.round <= RoundLimits(round, e, o, |order|)[x];
      } else {
        RingDistinct(order, cursor, x, r);
      }
    }
  }

  lemma NotYetServed(ds: seq<Demand>, p: Priority, order: seq<Id>, cursor: nat, round: nat, e: nat, o: nat,
                     g: seq<nat>, steps: seq<Step>)
    requires RoundAt(ds, p, order, cursor, round, e) && o < |order|
    requires MidRound(ds, p, order, cursor, round, e, o, g, steps)
    ensures forall s :: s in steps && s.priority == p && s.store == RingStore(order, cursor, Place(e, o, |order|)) ==>
      s.round < round
  {
    assert RoundLimits(round, e, o, |order|)[Place(e, o, |order|)] == round - 1;
  }

  /** The cursor is where the round began, or behind the store served last. */
  ghost predicate CursorFollows(order: seq<Id>, cursor: nat, g: seq<nat>, served: bool, first: nat, now: nat)
    requires cursor < |order| == |g|
  {
    if served then Advance(g) > 0 && now == Wrap(cursor + Advance(g), |order|) else now == first
  }

  method ServePlace(ds: seq<Demand>, p: Priority, order: seq<Id>, round: nat, storeIndex: nat, start: Run,
                    ghost cursor: nat, ghost e: nat, ghost o: nat, ghost g0: seq<nat>, ghost before: Run)
    returns (run: Run, ghost g: seq<nat>)
    requires UniqueDemands(ds) && DistinctIds(order) && |g0| == |order| && |start.remaining| == |ds|
    requires Serving(ds, p, order, cursor, g0, before, start) && start.available > 0
    requires RoundAt(ds, p, order, cursor, round, e) && o < |order|
    requires storeIndex == Wrap(cursor + Place(e, o, |order|), |order|)
    requires MidRound(ds, p, order, cursor, round, e, o, g0, start.steps)
    ensures |g| == |order| && |run.remaining| == |ds| && Serving(ds, p, order, cursor, g, before, run)
    ensures MidRound(ds, p, order, cursor, round, e, o + 1, g, run.steps)
    ensures if run.available == start.available then run == start && g == g0
            else run.available < start.available && CursorFollows(order, cursor, g, true, 0, run.cursor)
    ensures forall s :: s in run.steps ==> s in start.steps || s.priority == p
  {
    hide Serving, MidRound, Recorded;
    NotYetServed(ds, p, order, cursor, round, e, o, g0, start.steps);
    run, g := ServeStore(ds, p, order, round, storeIndex, start, cursor, Place(e, o, |order|), g0, before);
    NextPlace(ds, p, order, cursor, round, e, o, g0, start.steps, g, run.steps);
  }

  /** One round around the ring: each store with an open demand gets one unit, while stock lasts. */
  method ServeRound(ds: seq<Demand>, p: Priority, order: seq<Id>, round: nat, start: Run,
                    ghost cursor: nat, ghost e: nat, ghost g0: seq<nat>, ghost before: Run)
    returns (run: Run, ghost g: seq<nat>, ghost turns: nat)
    requires UniqueDemands(ds) && DistinctIds(order) && |start.remaining| == |ds|
    requires Serving(ds, p, order, cursor, g0, before, start)
    requires RoundAt(ds, p, order, cursor, round, e) && start.cursor == Wrap(cursor + e, |order|)
    requires |g0| == |order| && MidRound(ds, p, order, cursor, round, e, 0, g0, start.steps)
    ensures |g| == |order| && |run.remaining| == |ds| && Serving(ds, p, order, cursor, g, before, run)
    ensures turns <= |order| && MidRound(ds, p, order, cursor, round, e, turns, g, run.steps)
    ensures run.available > 0 ==> turns == |order|
    ensures run.available <= start.available
    ensures run.available == start.available ==> g == g0
    ensures CursorFollows(order, cursor, g, run.available < start.available, start.cursor, run.cursor)
    ensures forall s :: s in run.steps ==> s in start.steps || s.priority == p
  {
    hide Serving, MidRound;
    run, g := start, g0;
    var offset := 0;
    while offset < |order| && run.available > 0
      invariant 0 <= offset <= |order|
      invariant |g| == |order| && |run.remaining| == |ds| && Serving(ds, p, order, cursor, g, before, run)
      invariant MidRound(ds, p, order, cursor, round, e, offset, g, run.steps)
      invariant run.available <= start.available
      invariant run.available == start.available ==> g == g0
      invariant CursorFollows(order, cursor, g, run.available < start.available, start.cursor, run.cursor)
      invariant forall s :: s in run.steps ==> s in start.steps || s.priority == p
    {
      var storeIndex := Wrap(start.cursor + offset, |order|);
      run, g := ServePlace(ds, p, order, round, storeIndex, run, cursor, e, offset, g, before);
      offset := offset + 1;
    }
    turns := offset;
  }

  // ---------------------------------------------------------------------------------------------
  // One priority
  // ---------------------------------------------------------------------------------------------

  method HasOpen(ds: seq<Demand>, p: Priority, remaining: seq<nat>) returns (open: bool)
    requires |remaining| == |ds|
    ensures open <==> exists i :: 0 <= i < |ds| && ds[i].priority == p && remaining[i] > 0
  {
    for i := 0 to |ds|
      invariant forall k :: 0 <= k < i ==> !(ds[k].priority == p && remaining[k] > 0)
    {
      if ds[i].priority == p && remaining[i] > 0 { return true; }
    }
    return false;
  }

  /** A store's grants cover its demand once none of its demands is open. */
  lemma {:induction false} AllServed(ds: seq<Demand>, p: Priority, store: Id, g: nat, n: nat)
    requires n <= |ds|
    requires forall i :: 0 <= i < n && InGroup(ds[i], p, store) ==> Served(ds, i, g) == ds[i].requested
    ensures StoreDemand(ds[..n], p, store) <= g
  {
    if n > 0 {
      AllServed(ds, p, store, g, n - 1);
      StoreDemandStep(ds, n - 1, p, store);
    }
  }

  lemma OpenDemandOpensStore(ds: seq<Demand>, p: Priority, store: Id, i: nat, g: nat)
    requires i < |ds| && InGroup(ds[i], p, store) && Served(ds, i, g) < ds[i].requested
    ensures g < StoreDemand(ds, p, store)
  {
    StoreDemandStep(ds, i, p, store);
    StoreDemandGrows(ds, i + 1, |ds|, p, store);
    assert ds[..|ds|] == ds;
  }

  lemma RingCovers(order: seq<Id>, cursor: nat, store: Id) returns (r: nat)
    requires cursor < |order| && store in order
    ensures r < |order| && RingStore(order, cursor, r) == store
  {
    var k :| 0 <= k < |order| && order[k] == store;
    r := if k >= cursor then k - cursor else k + |order| - cursor;
  }

  /** Some demand is open exactly when some store's claim is not met. */
  lemma OpenMeansUnmet(ds: seq<Demand>, p: Priority, order: seq<Id>, cursor: nat, g: seq<nat>, before: Run, run: Run)
    requires Serving(ds, p, order, cursor, g, before, run)
    requires forall d :: d in ds ==> d.store in order
    requires forall r :: 0 <= r < |order| ==> g[r] <= RingClaims(ds, p, order, cursor)[r]
    ensures |run.remaining| == |ds|
    ensures (exists i :: 0 <= i < |ds| && ds[i].priority == p && run.remaining[i] > 0) <==> g != RingClaims(ds, p, order, cursor)
  {
    hide Recorded;
    var claims := RingClaims(ds, p, order, cursor);
    if i :| 0 <= i < |ds| && ds[i].priority == p && run.remaining[i] > 0 {
      var r := RingCovers(order, cursor, ds[i].store);
      OpenDemandOpensStore(ds, p, ds[i].store, i, g[r]);
      assert g[r] < claims[r];
    } else {
      forall r | 0 <= r < |order| ensures claims[r] <= g[r] {
        AllServed(ds, p, RingStore(order, cursor, r), g[r], |ds|);
        assert ds[..|ds|] == ds;
      }
    }
  }

  /** After a full round that reached its level, the next round starts behind the store served last. */
  lemma NextRound(ds: seq<Demand>, p: Priority, order: seq<Id>, cursor: nat, round: nat, e: nat, g: seq<nat>, steps: seq<Step>)
    requires RoundAt(ds, p, order, cursor, round, e)
    requires MidRound(ds, p, order, cursor, round, e, |order|, g, steps)
    requires exists r :: 0 <= r < |order| && g[r] == round
    ensures Advance(g) > 0
    ensures RoundAt(ds, p, order, cursor, round + 1, Advance(g))
    ensures MidRound(ds, p, order, cursor, round + 1, Advance(g), 0, g, steps)
    ensures g == AtLevel(RingClaims(ds, p, order, cursor), round, 0)
  {
    var claims := RingClaims(ds, p, order, cursor);
    assert g == AtLevel(claims, round, 0);
    assert Highest(g) == round;
    forall r | Advance(g) <= r < |order| ensures claims[r] < round + 1 {
      assert g[r] != round;
    }
    assert RoundLimits(round + 1, Advance(g), 0, |order|) == RoundLimits(round, e, |order|, |order|);
  }

  /** The first round of a tier: nobody has anything, and no step of this priority was recorded. */
  lemma FirstRound(ds: seq<Demand>, p: Priority, order: seq<Id>, start: Run, g: seq<nat>)
    requires start.cursor < |order| && g == seq(|order|, _ => 0)
    requires |start.remaining| == |ds| && Recorded(ds, start.remaining, start.steps)
    requires forall i :: 0 <= i < |ds| && ds[i].priority == p ==> start.remaining[i] == ds[i].requested
    requires forall s :: s in start.steps ==> s.priority != p
    ensures Serving(ds, p, order, start.cursor, g, start, start)
    ensures RoundAt(ds, p, order, start.cursor, 1, |order|)
    ensures MidRound(ds, p, order, start.cursor, 1, |order|, 0, g, start.steps)
    ensures g == AtLevel(RingClaims(ds, p, order, start.cursor), 0, 0)
    ensures Advance(g) == 0
  {
    SumZero(g);
    assert g == AtLevel(RingClaims(ds, p, order, start.cursor), 0, 0);
  }

  /** One round of a tier in which a demand was open grants something. */
  lemma RoundProgresses(claims: seq<nat>, level: nat)
    requires AtLevel(claims, level, 0) != claims
    ensures AtLevel(claims, level, |claims|) != AtLevel(claims, level, 0)
    ensures exists r :: 0 <= r < |claims| && AtLevel(claims, level, |claims|)[r] == level + 1
  {
    var r :| 0 <= r < |claims| && AtLevel(claims, level, 0)[r] != claims[r];
    assert AtLevel(claims, level, |claims|)[r] == level + 1;
  }

  lemma TierDone(claims: seq<nat>, stock: nat, g: seq<nat>, level: nat, ahead: nat, available: nat)
    requires ahead <= |claims| && g == AtLevel(claims, level, ahead)
    requires available + Sum(g) == stock
    requires available > 0 ==> g == claims
    ensures IsFill(claims, stock, g)
  {
    SumLeq(g, claims);
  }

  lemma ServedSum(ds: seq<Demand>, p: Priority, order: seq<Id>, cursor: nat, g: seq<nat>, before: Run, run: Run)
    requires Serving(ds, p, order, cursor, g, before, run)
    ensures |g| == |order| && |run.remaining| == |ds| == |before.remaining| && cursor < |order|
    ensures run.available + Sum(g) == before.available
    ensures Sum(run.remaining) + Sum(g) == Sum(before.remaining)
  {
    hide Recorded, Reflects;
  }

  lemma FullRound(ds: seq<Demand>, p: Priority, order: seq<Id>, cursor: nat, round: nat, e: nat, g: seq<nat>, steps: seq<Step>)
    requires RoundAt(ds, p, order, cursor, round, e)
    requires MidRound(ds, p, order, cursor, round, e, |order|, g, steps)
    ensures g == AtLevel(RingClaims(ds, p, order, cursor), round - 1, |order|)
    ensures g == AtLevel(RingClaims(ds, p, order, cursor), round, 0)
  {
  }

  lemma PartialRound(ds: seq<Demand>, p: Priority, order: seq<Id>, cursor: nat, round: nat, e: nat, turns: nat,
                     g: seq<nat>, steps: seq<Step>)
    requires RoundAt(ds, p, order, cursor, round, e) && turns <= |order|
    requires MidRound(ds, p, order, cursor, round, e, turns, g, steps)
    ensures Monus(turns + e, |order|) <= |order|
    ensures g == AtLevel(RingClaims(ds, p, order, cursor), round - 1, Monus(turns + e, |order|))
  {
  }

  /** A round of a tier in which some demand is open: it grants something, and either the stock is
  gone or the next round can start. */
  method PlayRound(ds: seq<Demand>, p: Priority, order: seq<Id>, round: nat, start: Run,
                   ghost cursor: nat, ghost e: nat, ghost g0: seq<nat>, ghost before: Run)
    returns (run: Run, ghost g: seq<nat>, ghost e': nat, ghost ahead: nat)
    requires UniqueDemands(ds) && DistinctIds(order) && start.available > 0 && |start.remaining| == |ds|
    requires Serving(ds, p, order, cursor, g0, before, start)
    requires RoundAt(ds, p, order, cursor, round, e) && start.cursor == Wrap(cursor + e, |order|)
    requires |g0| == |order| && MidRound(ds, p, order, cursor, round, e, 0, g0, start.steps)
    requires g0 == AtLevel(RingClaims(ds, p, order, cursor), round - 1, 0) != RingClaims(ds, p, order, cursor)
    ensures |g| == |order| && |run.remaining| == |ds| && Serving(ds, p, order, cursor, g, before, run)
    ensures run.available < start.available
    ensures run.cursor == Wrap(cursor + Advance(g), |order|)
    ensures 0 < e' <= |order| && ahead <= |order|
    ensures run.available == 0 ==> g == AtLevel(RingClaims(ds, p, order, cursor), round - 1, ahead)
    ensures run.available > 0 ==>
      && ahead == 0 && e' == Advance(g) && g == AtLevel(RingClaims(ds, p, order, cursor), round, 0)
      && RoundAt(ds, p, order, cursor, round + 1, e')
      && MidRound(ds, p, order, cursor, round + 1, e', 0, g, run.steps)
    ensures forall s :: s in run.steps ==> s in start.steps || s.priority == p
  {
    hide Serving, MidRound, Recorded;
    ghost var turns, claims := 0, RingClaims(ds, p, order, cursor);
    run, g, turns := ServeRound(ds, p, order, round, start, cursor, e, g0, before);
    RoundProgresses(claims, round - 1);
    e', ahead := e, Monus(turns + e, |order|);
    PartialRound(ds, p, order, cursor, round, e, turns, g, run.steps);
    if turns == |order| {
      FullRound(ds, p, order, cursor, round, e, g, run.steps);
      NextRound(ds, p, order, cursor, round, e, g, run.steps);
    }
    if run.available > 0 { e', ahead := Advance(g), 0; }
  }

  /** The rounds of one priority. */
  method ServeTier(ds: seq<Demand>, p: Priority, order: seq<Id>, start: Run) returns (run: Run, ghost g: seq<nat>)
    requires UniqueDemands(ds) && DistinctIds(order) && start.cursor < |order|
    requires forall d :: d in ds ==> d.store in order
    requires |start.remaining| == |ds| && Recorded(ds, start.remaining, start.steps)
    requires forall i :: 0 <= i < |ds| && ds[i].priority == p ==> start.remaining[i] == ds[i].requested
    requires forall s :: s in start.steps ==> s.priority != p
    ensures |g| == |order| && |run.remaining| == |ds| && Serving(ds, p, order, start.cursor, g, start, run)
    ensures IsTier(ds, p, order, Tier(start.available, start.cursor, g))
    ensures Follows(order, Tier(start.available, start.cursor, g), run.available, run.cursor)
    ensures forall s :: s in run.steps ==> s in start.steps || s.priority == p
  {
    hide Serving, MidRound, Recorded, RoundAt, Advance, AtLevel, IsFill;
    g := seq(|order|, _ => 0);
    run := start;
    var round := 0;
    ghost var cursor, claims := start.cursor, RingClaims(ds, p, order, start.cursor);
    ghost var e, level: nat, ahead: nat := |order|, 0, 0;
    FirstRound(ds, p, order, start, g);
    while run.available > 0
      invariant |g| == |order| && |run.remaining| == |ds| && Serving(ds, p, order, cursor, g, start, run)
      invariant ahead <= |order| && g == AtLevel(claims, level, ahead)
      invariant run.cursor == Wrap(cursor + Advance(g), |order|)
      invariant 0 < e <= |order|
      invariant run.available > 0 ==> run.cursor == Wrap(cursor + e, |order|) && level == round && ahead == 0
      invariant run.available > 0 ==> RoundAt(ds, p, order, cursor, round + 1, e)
      invariant run.available > 0 ==> MidRound(ds, p, order, cursor, round + 1, e, 0, g, run.steps)
      invariant forall s :: s in run.steps ==> s in start.steps || s.priority == p
      decreases run.available
    {
      OpenMeansUnmet(ds, p, order, cursor, g, start, run);
      var open := HasOpen(ds, p, run.remaining);
      if !open { break; }
      round := round + 1;
      run, g, e, ahead := PlayRound(ds, p, order, round, run, cursor, e, g, start);
      if run.available > 0 { level := round; } else { level := round - 1; }
    }
    ServedSum(ds, p, order, cursor, g, start, run);
    TierDone(claims, start.available, g, level, ahead, run.available);
  }

  // ---------------------------------------------------------------------------------------------
  // All priorities
  // ---------------------------------------------------------------------------------------------

  function Requested(ds: seq<Demand>): (q: seq<nat>)
    ensures |q| == |ds|
  {
    seq(|ds|, i requires 0 <= i < |ds| => ds[i].requested)
  }

  function Remaining(remainders: seq<Remainder>): (q: seq<nat>)
    ensures |q| == |remainders|
  {
    seq(|remainders|, i requires 0 <= i < |remainders| => remainders[i].remaining)
  }

  function Granted(remainders: seq<Remainder>): (q: seq<nat>)
    ensures |q| == |remainders|
  {
    seq(|remainders|, i requires 0 <= i < |remainders| => remainders[i].granted)
  }

  /** Which tier a priority is served in. */
  lemma PriorityIsListed(p: Priority)
    ensures Rank(p) < |PRIORITIES| && PRIORITIES[Rank(p)] == p
    ensures forall k :: 0 <= k < |PRIORITIES| ==> Rank(PRIORITIES[k]) == k
  {
  }

  ghost predicate AllReflect(ds: seq<Demand>, order: seq<Id>, tiers: seq<Tier>, remaining: seq<nat>)
    requires |remaining| == |ds| && |tiers| <= |PRIORITIES|
  {
    forall k :: 0 <= k < |tiers| ==>
      && |tiers[k].grants| == |order| && tiers[k].cursor < |order|
      && Reflects(ds, PRIORITIES[k], order, tiers[k], remaining)
  }

  /** Tier by tier, from the start cursor to the end cursor. */
  ghost predicate Explained(ds: seq<Demand>, order: seq<Id>, stock: nat, first: nat, tiers: seq<Tier>,
                            remaining: seq<nat>, left: nat, last: nat)
    requires |remaining| == |ds|
  {
    && |tiers| == |PRIORITIES| && AreTiers(ds, order, stock, first, tiers)
    && AllReflect(ds, order, tiers, remaining)
    && Follows(order, tiers[|tiers| - 1], left, last)
  }

  function StartIndex(input: Input): nat
    requires Valid(input) && input.storeOrder != []
  {
    if input.startCursor.None? then 0 else IndexOf(input.storeOrder, input.startCursor.value)
  }

  function IndexOf(ids: seq<Id>, id: Id): (i: nat)
    requires id in ids
    ensures i < |ids| && ids[i] == id
  {
    if ids[0] == id then 0 else 1 + IndexOf(ids[1..], id)
  }

  ghost predicate IsOutcome(input: Input, out: Allocation)
    requires Valid(input)
  {
    var ds := InServingOrder(input.demands);
    && |out.remainders| == |ds|
    && (forall i :: 0 <= i < |ds| ==>
          out.remainders[i].demand == ds[i]
          && out.remainders[i].granted + out.remainders[i].remaining == ds[i].requested)
    && out.granted == Sum(Granted(out.remainders)) <= input.stock
    && Recorded(ds, Remaining(out.remainders), out.steps)
    && (input.storeOrder == [] ==> out.nextCursor == input.startCursor)
    && (input.storeOrder != [] ==> exists tiers, last :: EndsAt(input, out, tiers, last))
  }

  ghost predicate EndsAt(input: Input, out: Allocation, tiers: seq<Tier>, last: nat)
    requires Valid(input) && input.storeOrder != [] && |out.remainders| == |input.demands| && out.granted <= input.stock
  {
    && last < |input.storeOrder|
    && Explained(InServingOrder(input.demands), input.storeOrder, input.stock, StartIndex(input), tiers,
                 Remaining(out.remainders), input.stock - out.granted, last)
    && out.nextCursor == if out.granted > 0 then Some(input.storeOrder[last]) else input.startCursor
  }

  lemma SortedDemands(input: Input)
    requires Valid(input)
    ensures var ds := InServingOrder(input.demands);
      && UniqueDemands(ds) && (forall d :: d in ds <==> d in input.demands)
      && multiset(ds) == multiset(input.demands)
  {
    var ds := InServingOrder(input.demands);
    SortPermutes(input.demands, DemandOrder);
    SameElements(ds, input.demands);
    SortKeepsDistinct(input.demands, DemandOrder);
    hide InServingOrder, DemandOrder;
    forall a, b | a in input.demands && b in input.demands && a.id == b.id ensures a == b {
      var j :| 0 <= j < |input.demands| && input.demands[j] == a;
      var k :| 0 <= k < |input.demands| && input.demands[k] == b;
    }
    forall i, j | 0 <= i < j < |ds| ensures ds[i].id != ds[j].id {
      assert ds[i] in ds && ds[j] in ds && ds[i] != ds[j];
    }
  }

  /** A tier after those already served leaves what they reflect alone. */
  lemma LaterTier(ds: seq<Demand>, order: seq<Id>, tiers: seq<Tier>, start: Run, tier: Tier, run: Run)
    requires |tiers| < |PRIORITIES| && |start.remaining| == |ds| == |run.remaining|
    requires forall k :: 0 <= k < |tiers| ==> IsTier(ds, PRIORITIES[k], order, tiers[k])
    requires AllReflect(ds, order, tiers, start.remaining)
    requires IsTier(ds, PRIORITIES[|tiers|], order, tier)
    requires Serving(ds, PRIORITIES[|tiers|], order, tier.cursor, tier.grants, start, run)
    ensures forall k :: 0 <= k < |tiers| + 1 ==> IsTier(ds, PRIORITIES[k], order, (tiers + [tier])[k])
    ensures AllReflect(ds, order, tiers + [tier], run.remaining)
    ensures forall i :: 0 <= i < |ds| && ds[i].priority != PRIORITIES[|tiers|] ==> run.remaining[i] == start.remaining[i]
  {
    hide Recorded, IsTier;
    var all := tiers + [tier];
    forall k | 0 <= k < |all|
      ensures |all[k].grants| == |order| && all[k].cursor < |order|
      ensures Reflects(ds, PRIORITIES[k], order, all[k], run.remaining)
    {
      assert k < |tiers| ==> Rank(PRIORITIES[k]) != Rank(PRIORITIES[|tiers|]);
      if k < |tiers| {
        assert Reflects(ds, PRIORITIES[k], order, tiers[k], start.remaining);
      }
    }
  }

  /** Nothing recorded yet. */
  lemma NothingRecorded(ds: seq<Demand>)
    ensures Recorded(ds, Requested(ds), [])
  {
  }

  lemma ServedTier(ds: seq<Demand>, p: Priority, order: seq<Id>, cursor: nat, g: seq<nat>, start: Run, run: Run)
    requires Serving(ds, p, order, cursor, g, start, run)
    ensures |run.remaining| == |ds| && Recorded(ds, run.remaining, run.steps)
    ensures run.available <= start.available
    ensures Sum(run.remaining) - run.available == Sum(start.remaining) - start.available
  {
    hide Reflects, Recorded;
  }

  ghost predicate Untouched(ds: seq<Demand>, remaining: seq<nat>, k: nat)
    requires |remaining| == |ds|
  {
    forall i :: 0 <= i < |ds| && Rank(ds[i].priority) >= k ==> remaining[i] == ds[i].requested
  }

  /** All priorities in their order, on a ring with at least one store. */
  method ServeAll(ds: seq<Demand>, order: seq<Id>, stock: nat, first: nat) returns (run: Run, ghost tiers: seq<Tier>)
    requires UniqueDemands(ds) && DistinctIds(order) && first < |order|
    requires forall d :: d in ds ==> d.store in order
    ensures |run.remaining| == |ds| && run.cursor < |order| && run.available <= stock
    ensures Explained(ds, order, stock, first, tiers, run.remaining, run.available, run.cursor)
    ensures Recorded(ds, run.remaining, run.steps)
    ensures Sum(run.remaining) - run.available == Sum(Requested(ds)) - stock
  {
    hide IsTier, Reflects, Serving, Recorded;
    run, tiers := Run(Requested(ds), stock, first, []), [];
    NothingRecorded(ds);
    for k := 0 to |PRIORITIES|
      invariant |tiers| == k && |run.remaining| == |ds| && run.cursor < |order| && run.available <= stock
      invariant AreTiers(ds, order, stock, first, tiers)
      invariant AllReflect(ds, order, tiers, run.remaining)
      invariant k == 0 ==> run.available == stock && run.cursor == first
      invariant k > 0 ==> |tiers[k - 1].grants| == |order| && tiers[k - 1].cursor < |order| && Follows(order, tiers[k - 1], run.available, run.cursor)
      invariant Recorded(ds, run.remaining, run.steps)
      invariant Untouched(ds, run.remaining, k)
      invariant forall s :: s in run.steps ==> Rank(s.priority) < k
      invariant Sum(run.remaining) - run.available == Sum(Requested(ds)) - stock
    {
      ghost var start, g := run, [];
      PriorityIsListed(PRIORITIES[k]);
      run, g := ServeTier(ds, PRIORITIES[k], order, run);
      ghost var tier := Tier(start.available, start.cursor, g);
      ServedTier(ds, PRIORITIES[k], order, start.cursor, g, start, run);
      LaterTier(ds, order, tiers, start, tier, run);
      tiers := tiers + [tier];
    }
  }

  function Report(ds: seq<Demand>, remaining: seq<nat>): (r: seq<Remainder>)
    requires |remaining| == |ds| && forall i :: 0 <= i < |ds| ==> remaining[i] <= ds[i].requested
    ensures |r| == |ds|
  {
    seq(|ds|, i requires 0 <= i < |ds| => Remainder(ds[i], ds[i].requested - remaining[i], remaining[i]))
  }

  lemma ReportSums(ds: seq<Demand>, remaining: seq<nat>)
    requires |remaining| == |ds| && forall i :: 0 <= i < |ds| ==> remaining[i] <= ds[i].requested
    ensures Remaining(Report(ds, remaining)) == remaining
    ensures Sum(Granted(Report(ds, remaining))) + Sum(remaining) == Sum(Requested(ds))
  {
    SumPlus(Granted(Report(ds, remaining)), remaining, Requested(ds));
  }

  lemma RecordedWithin(ds: seq<Demand>, remaining: seq<nat>, steps: seq<Step>)
    requires |remaining| == |ds| && Recorded(ds, remaining, steps)
    ensures forall i :: 0 <= i < |ds| ==> remaining[i] <= ds[i].requested
  {
  }

  lemma Refusals(input: Input)
    ensures !Valid(input) <==>
      || (exists d :: d in input.demands && (d.requested == 0 || d.store !in input.storeOrder || (d.priority == P0A) != d.source.ConfirmedWait?))
      || (exists i, j :: 0 <= i < j < |input.demands| && input.demands[i].id == input.demands[j].id)
      || (exists i, j :: 0 <= i < j < |input.storeOrder| && input.storeOrder[i] == input.storeOrder[j])
      || (input.startCursor.Some? && input.startCursor.value !in input.storeOrder)
  {
  }

  lemma ValidParts(input: Input)
    requires Valid(input)
    ensures DistinctIds(input.storeOrder) && forall d :: d in input.demands ==> d.store in input.storeOrder
    ensures input.storeOrder != [] ==> StartIndex(input) < |input.storeOrder|
  {
  }

  /** Without a ring there is no demand. */
  lemma NothingToAllocate(input: Input)
    requires Valid(input) && input.storeOrder == []
    ensures IsOutcome(input, Allocation(0, [], [], input.startCursor))
  {
    hide Recorded, Explained, InServingOrder;
    var ds := InServingOrder(input.demands);
    SortedDemands(input);
    assert ds == [] by { if ds != [] { HasMember(ds); } }
    NothingRecorded(ds);
    RecordedWithin(ds, Requested(ds), []);
  }

  /** The allocator.  Invalid input is refused as a whole: a demand for nothing, of a store off the ring,
  or with the first priority but no confirmed wait or the other way round; ids or stores listed twice;
  and a cursor off the ring. */
  method AllocateInventory(input: Input) returns (r: Result)
    ensures r.Success? <==> Valid(input)
    ensures r.InvalidArgument? <==>
      || (exists d :: d in input.demands && (d.requested == 0 || d.store !in input.storeOrder || (d.priority == P0A) != d.source.ConfirmedWait?))
      || (exists i, j :: 0 <= i < j < |input.demands| && input.demands[i].id == input.demands[j].id)
      || (exists i, j :: 0 <= i < j < |input.storeOrder| && input.storeOrder[i] == input.storeOrder[j])
      || (input.startCursor.Some? && input.startCursor.value !in input.storeOrder)
    ensures r.Success? ==> IsOutcome(input, r.value)
  {
    hide Recorded, Explained, InServingOrder, Valid, Sum;
    Refusals(input);
    if !Valid(input) { return InvalidArgument; }
    ValidParts(input);
    var ds := InServingOrder(input.demands);
    SortedDemands(input);
    if |input.storeOrder| == 0 {
      NothingToAllocate(input);
      return Success(Allocation(0, [], [], input.startCursor));
    }
    var first := StartIndex(input);
    var run: Run;
    ghost var tiers;
    run, tiers := ServeAll(ds, input.storeOrder, input.stock, first);
    RecordedWithin(ds, run.remaining, run.steps);
    ReportSums(ds, run.remaining);
    var granted := input.stock - run.available;
    var nextCursor := if granted > 0 then Some(input.storeOrder[run.cursor]) else input.startCursor;
    var out := Allocation(granted, Report(ds, run.remaining), run.steps, nextCursor);
    assert EndsAt(input, out, tiers, run.cursor);
    r := Success(out);
  }
}
