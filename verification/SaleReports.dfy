/** What a sales report does to counters and lots, told by their fields. */
module SaleReports {
  import opened Common
  import opened Quantities
  import opened SaleLots
  import opened SaleSettlement
  import opened SalePool
  import opened SaleInvariants
  import opened SaleRuns
  import opened SaleMeaning

  /** A counter after a figure: it observes it, and starts at it when it waited for its first one; without
  a figure it stays. */
  ghost predicate Observes(before: Counters, after: Counters, k: CounterKey, figure: Option<nat>) {
    match figure
    case Some(v) =>
      && k in after && after[k].observed == v && !after[k].pending
      && after[k].baseline == if k in before then (if before[k].pending then v else before[k].baseline) else 0
    case None =>
      && (k in after <==> k in before)
      && (k in before ==> after[k] == before[k].(applied := after[k].applied))
  }

  function FigureOn(figures: Figures, kind: SaleKind): Option<nat> {
    if kind == ByWeight then figures.byWeight else figures.byPiece
  }

  /** The two counters of the slot and month observe their figures; counters of other slots stay. */
  ghost predicate CountersSeen(before: Counters, after: Counters, slot: Slot, period: Period, figures: Figures) {
    && (forall k: CounterKey :: k.slot == slot ==>
          Observes(before, after, k, if k.period == period then FigureOn(figures, k.kind) else None))
    && (forall k: CounterKey :: k.slot != slot ==> (k in after <==> k in before) && (k in before ==> after[k] == before[k]))
  }

  /** Only keys of the slot are new. */
  ghost predicate KeysAdded(before: seq<CounterKey>, after: seq<CounterKey>, slot: Slot) {
    before <= after && forall i :: |before| <= i < |after| ==> after[i].slot == slot
  }

  /** One product's report: its counters observe their figures, and the slot is settled. */
  ghost predicate OneReported(before: State, after: State, slot: Slot, period: Period, figures: Figures) {
    && after == before.(lots := after.lots, keys := after.keys, counters := after.counters)
    && OnlySale(before.lots, after.lots, slot) && KeysAdded(before.keys, after.keys, slot)
    && CountersSeen(before.counters, after.counters, slot, period, figures)
    && AppliedIn(after, slot) == Min(TargetIn(after, slot), AppliedIn(before, slot) + SaleIn(before.lots, slot))
    && AppliedIn(after, slot) + SaleIn(after.lots, slot) == AppliedIn(before, slot) + SaleIn(before.lots, slot)
    && (forall x :: x != slot ==> AppliedIn(after, x) == AppliedIn(before, x))
  }

  lemma FigureObserved(s: State, key: CounterKey, figure: Option<nat>)
    requires KeysMatch(s)
    ensures var t := ObserveFigure(s, key, figure);
      && t == s.(keys := t.keys, counters := t.counters)
      && KeysAdded(s.keys, t.keys, key.slot) && Observes(s.counters, t.counters, key, figure)
      && (key in s.counters && key in t.counters ==> t.counters[key].applied == s.counters[key].applied)
      && (forall k :: k != key ==> (k in t.counters <==> k in s.counters) && (k in s.counters ==> t.counters[k] == s.counters[k]))
      && forall x :: AppliedIn(t, x) == AppliedIn(s, x)
  {
    hide AppliedIn, KeysMatch;
    if figure.Some? { PutKeepsSums(s, key, ObserveFigure(s, key, figure).counters[key]); }
  }

  lemma BothObserved(s: State, slot: Slot, period: Period, figures: Figures)
    requires KeysMatch(s)
    ensures var t := ObserveFigure(ObserveFigure(s, CounterKey(slot, period, ByWeight), figures.byWeight),
                                   CounterKey(slot, period, ByPiece), figures.byPiece);
      && t == s.(keys := t.keys, counters := t.counters) && KeysAdded(s.keys, t.keys, slot)
      && CountersSeen(s.counters, t.counters, slot, period, figures)
      && forall x :: AppliedIn(t, x) == AppliedIn(s, x)
  {
    hide AppliedIn, KeysMatch;
    var byWeight, byPiece := CounterKey(slot, period, ByWeight), CounterKey(slot, period, ByPiece);
    var first := ObserveFigure(s, byWeight, figures.byWeight);
    FigureObserved(s, byWeight, figures.byWeight);
    FigureObserved(first, byPiece, figures.byPiece);
    KindsAre(slot, period);
    hide ObserveFigure;
  }

  lemma SeenThenSettled(before: Counters, mid: Counters, after: Counters, slot: Slot, period: Period, figures: Figures)
    requires CountersSeen(before, mid, slot, period, figures) && OnlyApplied(mid, after, slot)
    ensures CountersSeen(before, after, slot, period, figures)
  {
    hide FigureOn;
    forall k: CounterKey | k.slot == slot
      ensures Observes(before, after, k, if k.period == period then FigureOn(figures, k.kind) else None)
    {
      assert Observes(before, mid, k, if k.period == period then FigureOn(figures, k.kind) else None);
    }
  }

  lemma SameTargets(s: State, t: State, slot: Slot)
    requires t.keys == s.keys && OnlyApplied(s.counters, t.counters, slot)
    ensures TargetIn(t, slot) == TargetIn(s, slot)
  {
    assert forall k :: k in s.counters ==> t.counters[k].observed == s.counters[k].observed && t.counters[k].baseline == s.counters[k].baseline;
    TotalSame(t.keys, TargetOf(t.counters, slot), s.keys, TargetOf(s.counters, slot));
  }

  lemma ReportAssembled(s: State, seen: State, t: State, slot: Slot, period: Period, figures: Figures)
    requires seen == s.(keys := seen.keys, counters := seen.counters) && t == seen.(lots := t.lots, counters := t.counters)
    requires CountersSeen(s.counters, seen.counters, slot, period, figures) && KeysAdded(s.keys, seen.keys, slot)
    requires OnlySale(seen.lots, t.lots, slot) && OnlyApplied(seen.counters, t.counters, slot)
    requires forall x :: AppliedIn(seen, x) == AppliedIn(s, x)
    requires SaleIn(t.lots, slot) + AppliedIn(t, slot) == SaleIn(seen.lots, slot) + AppliedIn(seen, slot)
    requires AppliedIn(t, slot) == Min(TargetIn(seen, slot), AppliedIn(seen, slot) + SaleIn(seen.lots, slot))
    requires forall x :: x != slot ==> AppliedIn(t, x) == AppliedIn(seen, x)
    ensures OneReported(s, t, slot, period, figures)
  {
    hide AppliedIn, SaleIn, TargetIn, OnlySale, OnlyApplied, CountersSeen, KeysAdded;
    SameTargets(seen, t, slot);
    SeenThenSettled(s.counters, seen.counters, t.counters, slot, period, figures);
  }

  lemma OneReportMeans(s: State, slot: Slot, period: Period, figures: Figures)
    requires Whole(s, 0)
    ensures KeysMatch(s) && OneReported(s, ObserveProduct(s, slot, period, figures), slot, period, figures)
  {
    ReportPending(s, slot, period, figures);
    hide Whole, Pending, Balanced, AppliedIn, SaleIn, TargetIn, KeysMatch, ObserveFigure, Settle, OnlySale, OnlyApplied, CountersSeen, OneReported, KeysAdded;
    var seen := ObserveFigure(ObserveFigure(s, CounterKey(slot, period, ByWeight), figures.byWeight),
                              CounterKey(slot, period, ByPiece), figures.byPiece);
    PendingParts(seen, slot, 0);
    BothObserved(s, slot, period, figures);
    SettledRows(seen, slot);
    SettledTotals(seen, slot);
    ReportAssembled(s, seen, Settle(seen, slot), slot, period, figures);
  }

  lemma ReportPending(s: State, slot: Slot, period: Period, figures: Figures)
    requires Whole(s, 0)
    ensures KeysMatch(s)
    ensures Pending(ObserveFigure(ObserveFigure(s, CounterKey(slot, period, ByWeight), figures.byWeight),
                                  CounterKey(slot, period, ByPiece), figures.byPiece), slot, 0)
  {
    assert KeysMatch(s);
    hide Books, SettledAt, ObserveFigure;
    var first := ObserveFigure(s, CounterKey(slot, period, ByWeight), figures.byWeight);
    ObserveFigureKeepsPending(s, CounterKey(slot, period, ByWeight), figures.byWeight, 0);
    ObserveFigureKeepsPending(first, CounterKey(slot, period, ByPiece), figures.byPiece, 0);
  }

  // ---------------------------------------------------------------------------------------------
  // The whole report
  // ---------------------------------------------------------------------------------------------

  /** What becomes of a slot.  With figures its two counters of the month observe theirs, and as much is
  applied as all its counters ask for and its Sale weight allows; without, everything stays. */
  ghost predicate SlotFollows(before: State, after: State, x: Slot, period: Period, figures: Option<Figures>) {
    && |after.lots| == |before.lots| && (forall i :: 0 <= i < |before.lots| ==> after.lots[i].slot == before.lots[i].slot)
    && match figures
       case Some(f) =>
         && (forall i :: 0 <= i < |before.lots| && before.lots[i].slot == x ==> after.lots[i] == before.lots[i].(sale := after.lots[i].sale))
         && (forall k: CounterKey :: k.slot == x ==>
               Observes(before.counters, after.counters, k, if k.period == period then FigureOn(f, k.kind) else None))
         && AppliedIn(after, x) == Min(TargetIn(after, x), AppliedIn(before, x) + SaleIn(before.lots, x))
         && AppliedIn(after, x) + SaleIn(after.lots, x) == AppliedIn(before, x) + SaleIn(before.lots, x)
       case None =>
         && (forall i :: 0 <= i < |before.lots| && before.lots[i].slot == x ==> after.lots[i] == before.lots[i])
         && (forall k: CounterKey :: k.slot == x ==>
               (k in after.counters <==> k in before.counters) && (k in before.counters ==> after.counters[k] == before.counters[k]))
         && AppliedIn(after, x) == AppliedIn(before, x)
  }

  /** The figures a report has for a slot: it is of the store, in the catalogue, and was credited, for the
  first time no later than in the report's month. */
  ghost function FiguresFor(s: State, x: Slot, store: Id, period: Period, figures: map<Id, Figures>): Option<Figures> {
    if x.store == store && x.product in figures && (x in s.firstCredit ==> s.firstCredit[x] <= period)
       && (exists lot :: lot in s.lots && lot.slot == x && lot.credited > 0)
    then Some(figures[x.product]) else None
  }

  ghost predicate ReportFollowed(before: State, after: State, store: Id, period: Period, figures: map<Id, Figures>) {
    && after == before.(lots := after.lots, keys := after.keys, counters := after.counters)
    && forall x :: SlotFollows(before, after, x, period, FiguresFor(before, x, store, period, figures))
  }

  /** The figures of the slots that the products listed name. */
  function FiguresOf(x: Slot, store: Id, figures: map<Id, Figures>, products: seq<Id>): Option<Figures> {
    if x.store == store && x.product in figures && x.product in products then Some(figures[x.product]) else None
  }

  ghost predicate ProductsFollowed(before: State, after: State, store: Id, period: Period, figures: map<Id, Figures>, products: seq<Id>) {
    && after == before.(lots := after.lots, keys := after.keys, counters := after.counters)
    && forall x :: SlotFollows(before, after, x, period, FiguresOf(x, store, figures, products))
  }

  lemma NothingFollowed(s: State, store: Id, period: Period, figures: map<Id, Figures>)
    ensures ProductsFollowed(s, s, store, period, figures, [])
  {
    hide AppliedIn, TargetIn, SaleIn;
  }

  lemma TargetsElsewhere(before: State, after: State, slot: Slot, x: Slot)
    requires KeysAdded(before.keys, after.keys, slot) && x != slot
    requires forall k: CounterKey :: k.slot == x ==>
      (k in after.counters <==> k in before.counters) && (k in before.counters ==> after.counters[k] == before.counters[k])
    ensures TargetIn(after, x) == TargetIn(before, x)
  {
    var more := after.keys[|before.keys|..];
    assert after.keys == before.keys + more;
    TotalAppend(before.keys, more, TargetOf(after.counters, x));
    TotalZero(more, TargetOf(after.counters, x));
    TotalSame(before.keys, TargetOf(after.counters, x), before.keys, TargetOf(before.counters, x));
  }

  /** Nothing happened to the slot. */
  ghost predicate Untouched(before: State, after: State, x: Slot) {
    && |after.lots| == |before.lots| && (forall i :: 0 <= i < |before.lots| ==> after.lots[i].slot == before.lots[i].slot)
    && (forall i :: 0 <= i < |before.lots| && before.lots[i].slot == x ==> after.lots[i] == before.lots[i])
    && (forall k: CounterKey :: k.slot == x ==>
          (k in after.counters <==> k in before.counters) && (k in before.counters ==> after.counters[k] == before.counters[k]))
    && AppliedIn(after, x) == AppliedIn(before, x) && SaleIn(after.lots, x) == SaleIn(before.lots, x) && TargetIn(after, x) == TargetIn(before, x)
  }

  /** The report of one product leaves every other slot as it is. */
  lemma OthersUntouched(before: State, after: State, slot: Slot, period: Period, f: Figures, x: Slot)
    requires OneReported(before, after, slot, period, f) && x != slot
    ensures Untouched(before, after, x)
  {
    OnlySaleKeeps(before.lots, after.lots, slot);
    hide AppliedIn, SaleIn, Observes;
    TargetsElsewhere(before, after, slot, x);
  }

  lemma OthersFollow(before: State, mid: State, after: State, x: Slot, period: Period, figures: Option<Figures>)
    requires SlotFollows(before, mid, x, period, figures) && Untouched(mid, after, x)
    ensures SlotFollows(before, after, x, period, figures)
  {
    hide AppliedIn, SaleIn, TargetIn, FigureOn;
    forall k: CounterKey | k.slot == x && figures.Some?
      ensures Observes(before.counters, after.counters, k, if k.period == period then FigureOn(figures.value, k.kind) else None)
    {
      assert Observes(before.counters, mid.counters, k, if k.period == period then FigureOn(figures.value, k.kind) else None);
    }
  }

  lemma SameSale(a: seq<Lot>, b: seq<Lot>, x: Slot)
    requires |a| == |b| && forall i :: 0 <= i < |a| ==> b[i].slot == a[i].slot && (a[i].slot == x ==> b[i] == a[i])
    ensures SaleIn(a, x) == SaleIn(b, x)
  {
    TotalSame(a, (l: Lot) => if l.slot == x then l.sale else 0, b, (l: Lot) => if l.slot == x then l.sale else 0);
  }

  lemma ThisFollows(before: State, mid: State, after: State, slot: Slot, period: Period, f: Figures)
    requires SlotFollows(before, mid, slot, period, None) && OneReported(mid, after, slot, period, f)
    ensures SlotFollows(before, after, slot, period, Some(f))
  {
    hide AppliedIn, TargetIn, FigureOn, SaleIn;
    SameSale(before.lots, mid.lots, slot);
    forall k: CounterKey | k.slot == slot
      ensures Observes(before.counters, after.counters, k, if k.period == period then FigureOn(f, k.kind) else None)
    {
      assert Observes(mid.counters, after.counters, k, if k.period == period then FigureOn(f, k.kind) else None);
    }
  }

  lemma OneMoreFollowed(before: State, mid: State, after: State, store: Id, period: Period, figures: map<Id, Figures>, front: seq<Id>, product: Id)
    requires ProductsFollowed(before, mid, store, period, figures, front) && product !in front && product in figures
    requires OneReported(mid, after, Slot(store, product), period, figures[product])
    ensures ProductsFollowed(before, after, store, period, figures, front + [product])
  {
    hide SlotFollows;
    forall x ensures SlotFollows(before, after, x, period, FiguresOf(x, store, figures, front + [product])) {
      assert SlotFollows(before, mid, x, period, FiguresOf(x, store, figures, front));
      if x == Slot(store, product) {
        ThisFollows(before, mid, after, x, period, figures[product]);
      } else {
        OthersUntouched(mid, after, Slot(store, product), period, figures[product], x);
        OthersFollow(before, mid, after, x, period, FiguresOf(x, store, figures, front));
      }
    }
  }

  lemma UnlistedFollowed(before: State, after: State, store: Id, period: Period, figures: map<Id, Figures>, front: seq<Id>, product: Id)
    requires ProductsFollowed(before, after, store, period, figures, front) && product !in figures
    ensures ProductsFollowed(before, after, store, period, figures, front + [product])
  {
    hide SlotFollows;
    forall x ensures SlotFollows(before, after, x, period, FiguresOf(x, store, figures, front + [product])) {
      assert SlotFollows(before, after, x, period, FiguresOf(x, store, figures, front));
    }
  }

  lemma {:induction false} ProductsMean(s: State, store: Id, period: Period, figures: map<Id, Figures>, products: seq<Id>)
    requires Whole(s, 0) && forall i, j :: 0 <= i < j < |products| ==> products[i] != products[j]
    ensures KeysMatch(s) && Whole(ObserveProducts(s, store, period, figures, products), 0)
    ensures ProductsFollowed(s, ObserveProducts(s, store, period, figures, products), store, period, figures, products)
  {
    assert KeysMatch(s);
    hide Whole, KeysMatch, ObserveProduct, OneReported, ProductsFollowed;
    ObserveProductsKeepWhole(s, store, period, figures, products, 0);
    if products == [] {
      NothingFollowed(s, store, period, figures);
    } else {
      var front, product := products[..|products| - 1], products[|products| - 1];
      assert products == front + [product];
      assert product !in front by {
        forall i | 0 <= i < |front| ensures front[i] != product { assert products[i] == front[i]; }
      }
      assert forall i, j :: 0 <= i < j < |front| ==> front[i] == products[i] && front[j] == products[j];
      ProductsMean(s, store, period, figures, front);
      var before := ObserveProducts(s, store, period, figures, front);
      if product in figures {
        OneReportMeans(before, Slot(store, product), period, figures[product]);
        OneMoreFollowed(s, before, ObserveProduct(before, Slot(store, product), period, figures[product]), store, period, figures, front, product);
      } else {
        UnlistedFollowed(s, before, store, period, figures, front, product);
      }
    }
  }

  lemma {:induction false} ProductsAreReported(s: State, lots: seq<Lot>, store: Id, period: Period)
    ensures forall p :: p in ReportedProducts(s, lots, store, period) <==>
      exists lot :: lot in lots && lot.slot == Slot(store, p) && lot.credited > 0 && (lot.slot in s.firstCredit ==> s.firstCredit[lot.slot] <= period)
    ensures forall i, j :: 0 <= i < j < |ReportedProducts(s, lots, store, period)| ==>
      ReportedProducts(s, lots, store, period)[i] != ReportedProducts(s, lots, store, period)[j]
  {
    if |lots| > 0 {
      var front, lot := lots[..|lots| - 1], lots[|lots| - 1];
      ProductsAreReported(s, front, store, period);
      assert lots == front + [lot];
    }
  }

  /** A sales report: every credited product of the store follows its figures and is settled, nothing else
  changes. */
  lemma ReportMeans(s: State, store: Id, period: Period, figures: map<Id, Figures>)
    requires Inv(s)
    ensures KeysMatch(s) && ReportFollowed(s, Observe(s, store, period, figures), store, period, figures)
  {
    assert Whole(s, 0);
    hide Whole, SlotFollows, ObserveProducts, KeysMatch;
    var products := ReportedProducts(s, s.lots, store, period);
    ProductsAreReported(s, s.lots, store, period);
    ProductsMean(s, store, period, figures, products);
    forall x ensures FiguresOf(x, store, figures, products) == FiguresFor(s, x, store, period, figures) {
      if x.store == store { assert x == Slot(store, x.product); }
    }
    var t := Observe(s, store, period, figures);
    forall x ensures SlotFollows(s, t, x, period, FiguresFor(s, x, store, period, figures)) {
      assert SlotFollows(s, t, x, period, FiguresOf(x, store, figures, products));
    }
  }
}
