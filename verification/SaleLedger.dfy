/** The ledger as the program keeps it: an object whose methods update its tables in loops.

Every command is proved to do what `SalePool` says, and to keep the invariant of the ledger. */
module SaleLedger {
  import opened Common
  import opened Quantities
  import opened SaleLots
  import opened SaleSettlement
  import opened SalePool
  import opened SaleInvariants
  import opened SaleRuns
  import opened SaleMeaning
  import opened SaleReports
  import opened SaleTravels

  /** A lot as it was when weight was taken from it, and how much was taken. */
  datatype Portion = Portion(index: nat, lot: Lot, grams: nat)

  /** The portions that give something, in the order of the lots, up to lot `n`. */
  function Portions(lots: seq<Lot>, t: seq<nat>, n: nat): seq<Portion>
    requires n <= |lots| == |t|
  {
    if n == 0 then []
    else Portions(lots, t, n - 1) + if t[n - 1] == 0 then [] else [Portion(n - 1, lots[n - 1], t[n - 1])]
  }

  /** Portions of these lots, none giving more than its lot holds. */
  ghost predicate Fit(lots: seq<Lot>, from: Field, portions: seq<Portion>) {
    forall p :: p in portions ==> p.index < |lots| && p.grams <= Weight(p.lot, from)
  }

  /** Writing the portions back, each from its captured copy. */
  ghost function Apply(lots: seq<Lot>, from: Field, to: Dest, portions: seq<Portion>): (r: seq<Lot>)
    requires Fit(lots, from, portions)
    ensures |r| == |lots|
  {
    if |portions| == 0 then lots
    else
      var p := portions[|portions| - 1];
      Apply(lots, from, to, portions[..|portions| - 1])[p.index := Move(p.lot, from, to, p.grams)]
  }

  lemma {:induction false} PortionsFit(lots: seq<Lot>, from: Field, t: seq<nat>, n: nat)
    requires n <= |lots| == |t| && forall i :: 0 <= i < |t| ==> t[i] <= Weight(lots[i], from)
    ensures Fit(lots, from, Portions(lots, t, n))
  {
    if n > 0 {
      PortionsFit(lots, from, t, n - 1);
    }
  }

  lemma MoveNothing(lot: Lot, from: Field, to: Dest)
    ensures Move(lot, from, to, 0) == lot
  {
  }

  lemma ApplyOneMore(lots: seq<Lot>, from: Field, to: Dest, before: seq<Portion>, p: Portion)
    requires Fit(lots, from, before) && p.index < |lots| && p.grams <= Weight(p.lot, from)
    ensures Fit(lots, from, before + [p])
    ensures Apply(lots, from, to, before + [p]) == Apply(lots, from, to, before)[p.index := Move(p.lot, from, to, p.grams)]
  {
    hide Move;
    assert (before + [p])[..|before|] == before;
  }

  lemma ApplyOneMoreAt(lots: seq<Lot>, from: Field, to: Dest, before: seq<Portion>, p: Portion, i: nat)
    requires Fit(lots, from, before) && p.index < |lots| && p.grams <= Weight(p.lot, from) && i < |lots|
    ensures Fit(lots, from, before + [p])
    ensures Apply(lots, from, to, before + [p])[i] == if i == p.index then Move(p.lot, from, to, p.grams) else Apply(lots, from, to, before)[i]
  {
    ApplyOneMore(lots, from, to, before, p);
  }

  lemma PortionsStep(lots: seq<Lot>, t: seq<nat>, n: nat)
    requires 0 < n <= |lots| == |t|
    ensures Portions(lots, t, n) == if t[n - 1] == 0 then Portions(lots, t, n - 1) else Portions(lots, t, n - 1) + [Portion(n - 1, lots[n - 1], t[n - 1])]
  {
  }

  lemma NoPortions(lots: seq<Lot>, from: Field, to: Dest, t: seq<nat>)
    requires |t| == |lots|
    ensures Fit(lots, from, Portions(lots, t, 0)) && Apply(lots, from, to, Portions(lots, t, 0)) == lots
  {
  }

  /** What lot `i` is after the first `n` lots gave their portions. */
  ghost predicate AppliedAt(lots: seq<Lot>, from: Field, to: Dest, t: seq<nat>, n: nat, i: nat)
    requires n <= |lots| == |t| && i < |lots|
  {
    var ps := Portions(lots, t, n);
    Fit(lots, from, ps) && t[i] <= Weight(lots[i], from)
    && Apply(lots, from, to, ps)[i] == if i < n then Move(lots[i], from, to, t[i]) else lots[i]
  }

  lemma NextApplied(lots: seq<Lot>, from: Field, to: Dest, t: seq<nat>, n: nat, i: nat)
    requires 0 < n <= |lots| == |t| && i < |lots| && t[n - 1] <= Weight(lots[n - 1], from)
    requires AppliedAt(lots, from, to, t, n - 1, i)
    ensures AppliedAt(lots, from, to, t, n, i)
  {
    hide Fit, Move, Weight, Portions, Apply;
    PortionsStep(lots, t, n);
    if t[n - 1] == 0 {
      MoveNothing(lots[n - 1], from, to);
    } else {
      ApplyOneMoreAt(lots, from, to, Portions(lots, t, n - 1), Portion(n - 1, lots[n - 1], t[n - 1]), i);
    }
  }

  /** Writing back the portions of one bucket moves exactly what was taken from each lot. */
  lemma {:induction false} ApplyPortions(lots: seq<Lot>, from: Field, to: Dest, t: seq<nat>, n: nat, i: nat)
    requires n <= |lots| == |t| && i < |lots| && forall k :: 0 <= k < |t| ==> t[k] <= Weight(lots[k], from)
    ensures AppliedAt(lots, from, to, t, n, i)
  {
    if n == 0 {
      NoPortions(lots, from, to, t);
    } else {
      hide AppliedAt, Weight;
      ApplyPortions(lots, from, to, t, n - 1, i);
      NextApplied(lots, from, to, t, n, i);
    }
  }

  lemma ApplyTaken(lots: seq<Lot>, slot: Slot, from: Field, to: Dest, g: nat)
    ensures var ps := Portions(lots, Taken(lots, slot, from, g), |lots|);
      Fit(lots, from, ps) && Apply(lots, from, to, ps) == Drain(lots, slot, from, to, g)
  {
    hide FirstCome;
    var t := Taken(lots, slot, from, g);
    PortionsFit(lots, from, t, |lots|);
    hide Fit, Portions, Apply, Taken;
    forall i | 0 <= i < |lots|
      ensures Apply(lots, from, to, Portions(lots, t, |lots|))[i] == Drain(lots, slot, from, to, g)[i]
    {
      ApplyPortions(lots, from, to, t, |lots|, i);
    }
  }

  /** Oldest lots first; nothing when the lots cannot cover the weight. */
  method TakeWeight(lots: seq<Lot>, slot: Slot, from: Field, g: nat) returns (r: Option<seq<Portion>>)
    ensures r.None? <==> g == 0 || g > Pool(lots, slot, from)
    ensures r.Some? ==> r.value == Portions(lots, Taken(lots, slot, from, g), |lots|)
  {
    hide FirstCome, Sum, Taken;
    if g == 0 { return None; }
    ghost var q, t := Amounts(lots, slot, from), Taken(lots, slot, from, g);
    var consumed: seq<Portion> := [];
    var remaining: nat := g;
    SumZero(q[..0]);
    var i := 0;
    while i < |lots|
      invariant 0 <= i <= |lots|
      invariant remaining == Monus(g, Sum(q[..i]))
      invariant consumed == Portions(lots, t, i)
    {
      var lot := lots[i];
      TakenAt(lots, slot, from, g, i);
      if lot.slot == slot && remaining != 0 {
        var take := Min(Weight(lot, from), remaining);
        if take > 0 {
          consumed := consumed + [Portion(i, lot, take)];
          remaining := remaining - take;
        }
      }
      i := i + 1;
    }
    assert q[..|lots|] == q;
    r := if remaining == 0 then Some(consumed) else None;
  }

  lemma TakenAt(lots: seq<Lot>, slot: Slot, from: Field, g: nat, i: nat)
    requires i < |lots|
    ensures var q := Amounts(lots, slot, from);
      && Sum(q[..i + 1]) == Sum(q[..i]) + q[i]
      && Taken(lots, slot, from, g)[i] == Min(q[i], Monus(g, Sum(q[..i])))
  {
    FirstComeAt(Amounts(lots, slot, from), g, i);
  }

  lemma ReturnedAt(lots: seq<Lot>, slot: Slot, g: nat, i: nat)
    requires i < |lots|
    ensures var q := Rooms(lots, slot);
      && Sum(q[i..]) == q[i] + Sum(q[i + 1..])
      && Returned(lots, slot, g)[i] == Min(q[i], Monus(g, Sum(q[i + 1..])))
  {
    var q := Rooms(lots, slot);
    SumAround(q[i..], 0);
    assert q[i..][1..] == q[i + 1..] && q[i..][..0] == [];
  }

  lemma NothingLeftToReturn(lots: seq<Lot>, slot: Slot, g: nat, i: nat)
    requires i <= |lots| && g <= Sum(Rooms(lots, slot)[i..])
    ensures forall k :: 0 <= k < i ==> Returned(lots, slot, g)[k] == 0
    ensures g <= RoomOf(lots, slot)
  {
    var q := Rooms(lots, slot);
    forall k | 0 <= k < i ensures Returned(lots, slot, g)[k] == 0 {
      ReturnedAt(lots, slot, g, k);
      SumSplit(q[k + 1..], i - k - 1);
      assert q[k + 1..][i - k - 1..] == q[i..];
    }
    SumSplit(q, i);
  }

  lemma NothingLeftToDebit(lots: seq<Lot>, slot: Slot, g: nat, i: nat)
    requires i <= |lots| && g <= Sum(Amounts(lots, slot, Sale)[..i])
    ensures forall k :: i <= k < |lots| ==> Taken(lots, slot, Sale, g)[k] == 0
    ensures g <= Pool(lots, slot, Sale)
  {
    var q := Amounts(lots, slot, Sale);
    forall k | i <= k < |lots| ensures Taken(lots, slot, Sale, g)[k] == 0 {
      TakenAt(lots, slot, Sale, g, k);
      SumSplit(q[..k], i);
      assert q[..k][..i] == q[..i];
    }
    SumSplit(q, i);
  }

  /** What the first pass leaves applied. */
  function Capped(counters: Counters, ks: seq<CounterKey>): (q: seq<nat>)
    requires forall k :: k in ks ==> k in counters
    ensures |q| == |ks|
  {
    seq(|ks|, i requires 0 <= i < |ks| => Min(counters[ks[i]].applied, Target(counters[ks[i]])))
  }

  lemma SetAppliedStep(counters: Counters, ks: seq<CounterKey>, applied: seq<nat>, j: nat)
    requires |applied| == |ks| && Known(counters, ks) && j < |ks|
    ensures var before, after := SetApplied(counters, ks[..j], applied[..j]), SetApplied(counters, ks[..j + 1], applied[..j + 1]);
      before[ks[j]] == counters[ks[j]] && after == before[ks[j] := counters[ks[j]].(applied := applied[j])]
  {
    SetAppliedAt(counters, ks[..j], applied[..j]);
    assert ks[j] !in ks[..j] by {
      assert forall i :: 0 <= i < j ==> ks[..j][i] == ks[i] && ks[i] != ks[j];
    }
    hide Known;
    assert ks[..j + 1][..j] == ks[..j] && applied[..j + 1][..j] == applied[..j];
  }

  /** Setting the applied weights twice keeps the second setting. */
  lemma SetAppliedAgain(counters: Counters, ks: seq<CounterKey>, a: seq<nat>, b: seq<nat>)
    requires |a| == |ks| == |b| && Known(counters, ks)
    ensures SetApplied(SetApplied(counters, ks, a), ks, b) == SetApplied(counters, ks, b)
  {
    SetAppliedAt(counters, ks, a);
    SetAppliedAt(SetApplied(counters, ks, a), ks, b);
    SetAppliedAt(counters, ks, b);
    var x, y := SetApplied(SetApplied(counters, ks, a), ks, b), SetApplied(counters, ks, b);
    forall k | k in counters ensures x[k] == y[k] {
      if k in ks {
        var i :| 0 <= i < |ks| && ks[i] == k;
      }
    }
  }

  /** After the first pass the counters still owe what they owed, and no longer exceed. */
  lemma CappedCounters(counters: Counters, ks: seq<CounterKey>)
    requires Known(counters, ks)
    ensures var mid := SetApplied(counters, ks, Capped(counters, ks));
      forall i :: 0 <= i < |ks| ==> mid[ks[i]] == counters[ks[i]].(applied := Capped(counters, ks)[i])
                                    && Deficit(mid[ks[i]]) == Deficit(counters[ks[i]])
  {
    SetAppliedAt(counters, ks, Capped(counters, ks));
  }

  lemma PrefixOf<T>(q: seq<T>)
    ensures q[..|q|] == q
  {
  }

  class Ledger {
    var bags: seq<Bag>
    var lots: seq<Lot>
    var keys: seq<CounterKey>
    var counters: Counters
    var firstCredit: map<Slot, Period>
    var transfers: seq<Transfer>
    var history: seq<Entry>
    var outbounds: seq<Outbound>

    ghost function View(): State
      reads this
    {
      State(bags, lots, keys, counters, firstCredit, transfers, history, outbounds)
    }

    constructor ()
      ensures View() == EMPTY && Inv(View())
    {
      bags, lots, keys, counters, firstCredit, transfers, history, outbounds := [], [], [], map[], map[], [], [], [];
      new;
      EmptyIsSound();
    }

    /** First pass of a settlement: due grams go back to the newest lots. */
    method ReturnToNewest(slot: Slot, due: nat) returns (left: nat)
      modifies this`lots
      ensures lots == Refund(old(lots), slot, due)
      ensures left == Monus(due, RoomOf(old(lots), slot))
    {
      hide Sum, Returned, LastCome;
      left := due;
      ghost var t, q := Returned(lots, slot, due), Rooms(lots, slot);
      var i := |lots|;
      assert q[i..] == [];
      SumZero(q[i..]);
      while i > 0 && left != 0
        invariant i <= |lots| == |old(lots)|
        invariant left == Monus(due, Sum(q[i..]))
        invariant forall k :: 0 <= k < |lots| ==>
          lots[k] == if k < i then old(lots)[k] else old(lots)[k].(sale := old(lots)[k].sale + t[k])
      {
        i := i - 1;
        var lot := lots[i];
        ReturnedAt(old(lots), slot, due, i);
        if lot.slot == slot {
          var credit := Min(Room(lot), left);
          if credit > 0 {
            lots := lots[i := lot.(sale := lot.sale + credit)];
            left := left - credit;
          }
        }
      }
      if left == 0 {
        NothingLeftToReturn(old(lots), slot, due, i);
      } else {
        assert q[0..] == q;
      }
    }

    /** Second pass of a settlement: due grams come from the oldest lots, as far as they reach. */
    method DebitOldest(slot: Slot, due: nat) returns (debited: nat)
      modifies this`lots
      ensures lots == Drain(old(lots), slot, Sale, Gone, due)
      ensures debited == Min(due, Pool(old(lots), slot, Sale))
    {
      hide Sum, Taken, FirstCome;
      var left: nat := due;
      debited := 0;
      ghost var t, q := Taken(lots, slot, Sale, due), Amounts(lots, slot, Sale);
      SumZero(q[..0]);
      var i := 0;
      while i < |lots| && left != 0
        invariant 0 <= i <= |lots| == |old(lots)|
        invariant left == Monus(due, Sum(q[..i])) && debited + left == due
        invariant forall k :: 0 <= k < |lots| ==>
          lots[k] == if k < i then Move(old(lots)[k], Sale, Gone, t[k]) else old(lots)[k]
      {
        var lot := lots[i];
        TakenAt(old(lots), slot, Sale, due, i);
        if lot.slot == slot {
          var debit := Min(lot.sale, left);
          if debit > 0 {
            lots := lots[i := lot.(sale := lot.sale - debit)];
            left := left - debit;
            debited := debited + debit;
          }
        }
        i := i + 1;
      }
      if left == 0 {
        NothingLeftToDebit(old(lots), slot, due, i);
      } else {
        assert q[..i] == q;
      }
    }

    /** Reverse what was applied beyond the targets; false when the lots have no room for it. */
    method ReversePass(slot: Slot, ks: seq<CounterKey>) returns (ok: bool)
      requires Known(counters, ks)
      modifies this`lots, this`counters
      ensures ok <==> old(CanReverse(lots, slot, counters, ks))
      ensures ok ==> lots == Refund(old(lots), slot, Sum(Excesses(old(counters), ks)))
      ensures ok ==> counters == SetApplied(old(counters), ks, Capped(old(counters), ks))
    {
      hide Refund, Sum, RoomOf, SetApplied;
      ghost var q, capped := Excesses(counters, ks), Capped(counters, ks);
      ghost var lots0, counters0 := lots, counters;
      SumZero(q[..0]);
      RefundNothing(lots, slot);
      assert counters == SetApplied(counters, ks[..0], capped[..0]) by { NothingSet(counters); }
      for j := 0 to |ks|
        invariant lots == Refund(lots0, slot, Sum(q[..j])) && Sum(q[..j]) <= RoomOf(lots0, slot)
        invariant counters == SetApplied(counters0, ks[..j], capped[..j])
      {
        SetAppliedStep(counters0, ks, capped, j);
        SumTake(q, j);
        var progress := counters[ks[j]];
        var target := Target(progress);
        var left := ReturnToNewest(slot, Excess(progress));
        RefundTwice(lots0, slot, Sum(q[..j]), Excess(progress));
        RefundTotals(lots0, slot, Sum(q[..j]));
        if left != 0 {
          SumSplit(q, j + 1);
          return false;
        }
        if progress.applied > target {
          counters := counters[ks[j] := progress.(applied := target)];
        } else {
          assert counters[ks[j] := progress.(applied := capped[j])] == counters;
        }
      }
      PrefixOf(q);
      PrefixOf(ks);
      PrefixOf(capped);
      ok := true;
    }

    /** Debit what is due, counter by counter, as far as the lots reach. */
    method DebitPass(slot: Slot, ks: seq<CounterKey>)
      requires Known(counters, ks)
      modifies this`lots, this`counters
      ensures lots == Drain(old(lots), slot, Sale, Gone, Sum(Deficits(old(counters), ks)))
      ensures counters == SetApplied(old(counters), ks, Paid(old(counters), ks, Pool(old(lots), slot, Sale)))
    {
      hide Drain, Sum, Pool, SetApplied, FirstCome;
      ghost var q, lots0, counters0 := Deficits(counters, ks), lots, counters;
      ghost var pool, paid := Pool(lots, slot, Sale), Paid(counters, ks, Pool(lots, slot, Sale));
      SumZero(q[..0]);
      DrainNothing(lots, slot, Sale, Gone, 0);
      assert counters == SetApplied(counters, ks[..0], paid[..0]) by { NothingSet(counters); }
      for j := 0 to |ks|
        invariant lots == Drain(lots0, slot, Sale, Gone, Sum(q[..j]))
        invariant counters == SetApplied(counters0, ks[..j], paid[..j])
      {
        SetAppliedStep(counters0, ks, paid, j);
        SumTake(q, j);
        FirstComeAt(q, pool, j);
        var progress := counters[ks[j]];
        DrainFrom(lots0, slot, Sale, Gone, Sum(q[..j]));
        var debited := DebitOldest(slot, Deficit(progress));
        DrainTwice(lots0, slot, Sale, Gone, Sum(q[..j]), Deficit(progress));
        counters := counters[ks[j] := progress.(applied := progress.applied + debited)];
      }
      PrefixOf(q);
      PrefixOf(ks);
      PrefixOf(paid);
    }

    /** Settlement does what `SalePool.Settle` says, and fails exactly when the lots have no room for
    the reversals. */
    method SettleSlot(slot: Slot) returns (ok: bool)
      requires KeysMatch(View())
      modifies this`lots, this`counters
      ensures ok <==> old(Known(counters, SlotKeys(View(), slot)) && CanReverse(lots, slot, counters, SlotKeys(View(), slot)))
      ensures ok ==> View() == Settle(old(View()), slot)
    {
      hide KeysOf, Drain, Refund, SetApplied, Sum;
      ghost var lots0, counters0 := lots, counters;
      SlotKeysKnown(View(), slot);
      var ks := KeysOf(keys, slot);
      ok := ReversePass(slot, ks);
      if !ok { return; }
      ghost var mid, capped := counters, Capped(counters0, ks);
      CappedCounters(counters0, ks);
      DebitPass(slot, ks);
      ghost var pool := PoolAfterReversal(lots0, slot, counters0, ks);
      assert Deficits(mid, ks) == Deficits(counters0, ks);
      assert Paid(mid, ks, pool) == SettledApplied(counters0, ks, pool);
      SetAppliedAgain(counters0, ks, capped, SettledApplied(counters0, ks, pool));
    }

    // -------------------------------------------------------------------------------------------
    // Commands
    // -------------------------------------------------------------------------------------------

    method RecordCounter(key: CounterKey, counter: Counter)
      requires KeysMatch(View())
      modifies this`keys, this`counters
      ensures View() == PutCounter(old(View()), key, counter)
    {
      if key !in counters { keys := keys + [key]; }
      counters := counters[key := counter];
    }

    method InitializeSaleBaseline(slot: Slot, env: Env)
      requires KeysMatch(View())
      modifies this`keys, this`counters
      ensures View() == InitializeBaseline(old(View()), slot, env)
      ensures forall k :: k in old(counters) ==> k in counters && counters[k] == old(counters)[k]
      ensures forall k :: k in counters && k !in old(counters) ==>
        k.slot == slot && k.period == env.period && counters[k].applied == 0 && Target(counters[k]) == 0
      ensures CounterKey(slot, env.period, ByWeight) in counters && CounterKey(slot, env.period, ByPiece) in counters
    {
      var figures := env.figures(slot);
      var key := CounterKey(slot, env.period, ByWeight);
      if key !in counters { RecordCounter(key, FreshCounter(figures.byWeight)); }
      key := CounterKey(slot, env.period, ByPiece);
      if key !in counters { RecordCounter(key, FreshCounter(figures.byPiece)); }
    }

    /** Before Sale weight is credited: a slot without any gets its baseline. */
    method Prepare(slot: Slot, env: Env)
      requires KeysMatch(View())
      modifies this`keys, this`counters
      ensures View() == PrepareCredit(old(View()), slot, env)
    {
      if !HasSale(lots, slot) { InitializeSaleBaseline(slot, env); }
    }

    /** The settlement of a slot whose books are otherwise complete: it cannot fail. */
    method SettlePending(slot: Slot, ghost early: nat)
      requires Pending(View(), slot, early)
      modifies this`lots, this`counters
      ensures KeysMatch(old(View())) && View() == Settle(old(View()), slot)
      ensures Whole(View(), early)
    {
      hide Settle, Pending, Whole;
      PendingReverses(View(), slot, early);
      SettleCompletes(View(), slot, early);
      var ok := SettleSlot(slot);
      assert ok;
    }

    /** After Sale weight was credited. */
    method CreditAndSettle(slot: Slot, period: Period, ghost early: nat)
      requires Pending(View(), slot, early)
      modifies this`lots, this`counters, this`firstCredit
      ensures KeysMatch(old(View())) && View() == Settle(MarkCredit(old(View()), slot, period), slot)
      ensures Whole(View(), early)
    {
      hide Settle, Pending, Whole;
      CreditSettles(View(), slot, period, early);
      MarkKeepsPending(View(), slot, period, early);
      if slot !in firstCredit { firstCredit := firstCredit[slot := period]; }
      SettlePending(slot, early);
    }

    /** Sort part of a bag into Sale, Charity or Cancel. */
    method CreateSorting(bag: nat, expectedVersion: nat, field: Field, g: nat, env: Env) returns (error: Option<Error>)
      requires Inv(View())
      modifies this
      ensures Inv(View())
      ensures KeysMatch(old(View())) && Answers(SortBag(old(View()), bag, expectedVersion, field, g, env), error, old(View()), View())
      ensures error == if bag >= old(|bags|) then Some(NotFound)
                       else if old(bags)[bag].version != expectedVersion || old(bags)[bag].status == Emptied then Some(VersionConflict)
                       else if g == 0 || g > old(bags)[bag].remaining then Some(InsufficientStock) else None
      ensures error.None? ==> SortedInto(old(View()), View(), bag, field, g, env)
    {
      hide Inv, Settle, Pending, AddToLot, PrepareCredit, MarkCredit, SortedInto;
      ghost var s := View();
      InvMatches(s);
      if SortBag(s, bag, expectedVersion, field, g, env).Done? { SortMeans(s, bag, expectedVersion, field, g, env); }
      if bag >= |bags| { return Some(NotFound); }
      var b := bags[bag];
      if b.version != expectedVersion || b.status == Emptied { return Some(VersionConflict); }
      if g == 0 || g > b.remaining { return Some(InsufficientStock); }
      SortBagKeepsInv(s, bag, expectedVersion, field, g, env);
      if field == Sale {
        SortIsPending(s, bag, g, env);
        Prepare(b.slot, env);
        PrepareKeepsRest(s, b.slot, env);
      }
      bags := bags[bag := OpenBag(b, g)];
      lots := AddToLot(lots, b.slot, bag, field, g);
      if field == Sale { CreditAndSettle(b.slot, env.period, 0); }
      history := history + [Entry(b.slot, SortAction(field), g)];
      error := None;
    }

    method ReceiveInBag(slot: Slot, g: nat)
      requires Inv(View())
      modifies this`bags
      ensures View() == ReceiveBag(old(View()), slot, g) && Inv(View())
      ensures bags == old(bags) + [Bag(slot, g, g, Available, 0)]
    {
      ReceiveBagKeepsInv(View(), slot, g);
      bags := bags + [Bag(slot, g, g, Available, 0)];
    }

    /** A document about weight of a bag; the bag keeps it until the document is approved. */
    method CreateOutbound(bag: nat, expectedVersion: nat, g: nat) returns (error: Option<Error>)
      requires Inv(View())
      modifies this`outbounds
      ensures Inv(View())
      ensures Answers(RequestOutbound(old(View()), bag, expectedVersion, g), error, old(View()), View())
      ensures error == if bag >= |bags| then Some(NotFound)
                       else if bags[bag].version != expectedVersion || bags[bag].status == Emptied then Some(VersionConflict)
                       else if g > bags[bag].remaining then Some(InsufficientStock) else None
      ensures outbounds == if error.None? then old(outbounds) + [Outbound(bag, g, Unreviewed, 0)] else old(outbounds)
    {
      hide Inv;
      if bag >= |bags| { return Some(NotFound); }
      var b := bags[bag];
      if b.version != expectedVersion || b.status == Emptied { return Some(VersionConflict); }
      if g > b.remaining { return Some(InsufficientStock); }
      RequestOutboundKeepsInv(View(), bag, expectedVersion, g);
      outbounds := outbounds + [Outbound(bag, g, Unreviewed, 0)];
      error := None;
    }

    /** The one review of a document. */
    method ReviewStoreOutbound(i: nat, expectedVersion: nat, approve: bool, noted: bool) returns (error: Option<Error>)
      requires Inv(View())
      modifies this`bags, this`outbounds
      ensures Inv(View())
      ensures Answers(ReviewOutbound(old(View()), i, expectedVersion, approve, noted), error, old(View()), View())
      ensures error == if i >= old(|outbounds|) then Some(NotFound)
                       else var o := old(outbounds)[i];
                         if o.version != expectedVersion || o.review != Unreviewed then Some(VersionConflict)
                         else if !approve then (if noted then None else Some(ValidationError))
                         else if o.bag >= old(|bags|) then Some(NotFound)
                         else if old(bags)[o.bag].status == Emptied then Some(VersionConflict)
                         else if o.grams > old(bags)[o.bag].remaining then Some(InsufficientStock) else None
      ensures error.None? ==>
        && i < old(|outbounds|)
        && outbounds == old(outbounds)[i := old(outbounds)[i].(review := if approve then Approved else Rejected, version := old(outbounds)[i].version + 1)]
      ensures error.None? && !approve ==> bags == old(bags)
      ensures error.None? && approve ==>
        var o := old(outbounds)[i];
        o.bag < old(|bags|) && o.grams <= old(bags)[o.bag].remaining && var left := old(bags)[o.bag].remaining - o.grams;
        bags == old(bags)[o.bag := old(bags)[o.bag].(
          remaining := left, status := if left == 0 then Emptied else Opened, version := old(bags)[o.bag].version + 1)]
    {
      hide Inv;
      if i >= |outbounds| { return Some(NotFound); }
      var o := outbounds[i];
      if o.version != expectedVersion || o.review != Unreviewed { return Some(VersionConflict); }
      if !approve && !noted { return Some(ValidationError); }
      ghost var s := View();
      if approve {
        if o.bag >= |bags| { return Some(NotFound); }
        var b := bags[o.bag];
        if b.status == Emptied { return Some(VersionConflict); }
        if o.grams > b.remaining { return Some(InsufficientStock); }
        bags := bags[o.bag := OpenBag(b, o.grams)];
      }
      ReviewOutboundKeepsInv(s, i, expectedVersion, approve, noted);
      outbounds := outbounds[i := o.(review := if approve then Approved else Rejected, version := o.version + 1)];
      error := None;
    }

    /** Write portions back to the lots and record them, one by one. */
    method WriteBack(slot: Slot, move: BucketMove, consumed: seq<Portion>)
      requires Fit(lots, move.from, consumed)
      modifies this`lots, this`history
      ensures lots == Apply(old(lots), move.from, move.to, consumed)
      ensures history == old(history) + Recorded(slot, move.action, consumed)
    {
      hide Move;
      assert old(history) + [] == old(history);
      for j := 0 to |consumed|
        invariant |lots| == |old(lots)|
        invariant lots == Apply(old(lots), move.from, move.to, consumed[..j])
        invariant history == old(history) + Recorded(slot, move.action, consumed[..j])
      {
        var p := consumed[j];
        ApplyStep(old(lots), move.from, move.to, consumed, j);
        lots := lots[p.index := Move(p.lot, move.from, move.to, p.grams)];
        history := history + [Entry(slot, move.action, p.grams)];
      }
      PrefixOf(consumed);
    }

    /** Move weight of a slot from one bucket to another, or out of the system, oldest lots first. */
    method MoveBetweenBuckets(slot: Slot, move: BucketMove, g: nat, env: Env) returns (error: Option<Error>)
      requires Inv(View()) && move in BUCKET_MOVES
      modifies this
      ensures Inv(View())
      ensures KeysMatch(old(View())) && Answers(MoveBucket(old(View()), slot, move, g, env), error, old(View()), View())
      ensures error == if move.action == CancelFinalize && g != CancelIn(old(lots), slot) then Some(ValidationError)
                       else if g == 0 || g > InBucket(old(lots), slot, move.action) then Some(InsufficientStock) else None
      ensures error.None? ==> MovedAs(old(View()), View(), slot, move.action, g, env) && |lots| == |old(lots)|
      ensures error.None? && SaleChange(move.action, g) < 0 ==> OldestSold(old(lots), lots, slot)
    {
      hide Inv, Settle, Pending, PrepareCredit, MarkCredit, Portions, Drain, Taken, Pool, Apply, Entries, Recorded, MovedAs, OldestSold,
           InBucket, CancelIn, SaleChange;
      ghost var s := View();
      InvMatches(s);
      MoveRefusedWhen(s, slot, move, g, env);
      if MoveBucket(s, slot, move, g, env).Done? { MoveMeans(s, slot, move, g, env); }
      if move.all && g != Pool(lots, slot, move.from) { return Some(ValidationError); }
      var consumed := TakeWeight(lots, slot, move.from, g);
      if consumed.None? { return Some(InsufficientStock); }
      MoveBucketKeepsInv(s, slot, move, g, env);
      ApplyTaken(lots, slot, move.from, move.to, g);
      RecordedPortions(lots, slot, move.from, move.action, g);
      if move.to == Into(Sale) {
        MoveIsPending(s, slot, move, g, env);
        Prepare(slot, env);
        PrepareKeepsRest(s, slot, env);
      }
      WriteBack(slot, move, consumed.value);
      if move.to == Into(Sale) { CreditAndSettle(slot, env.period, 0); }
      error := None;
    }

    /** Charity weight of one lot back to Sale, or all of it out. */
    method MoveCharityOfLot(lot: nat, seen: bool, g: nat, toSale: bool, env: Env) returns (error: Option<Error>)
      requires Inv(View())
      modifies this
      ensures Inv(View())
      ensures KeysMatch(old(View())) && Answers(MoveLotCharity(old(View()), lot, seen, g, toSale, env), error, old(View()), View())
      ensures error == if lot >= old(|lots|) then Some(NotFound)
                       else if !seen then Some(VersionConflict)
                       else if g == 0 || g > old(lots)[lot].charity then Some(InsufficientStock)
                       else if !toSale && g != old(lots)[lot].charity then Some(ValidationError)
                       else if old(lots)[lot].source.FromBag? then None else Some(NotFound)
      ensures lot < old(|lots|) && (error.None? || (error == Some(NotFound) && old(lots)[lot].source.FromTransfer?)) ==>
        LotMovedAs(old(View()), View(), lot, g, toSale, env)
    {
      hide Inv, Settle, Pending, PrepareCredit, MarkCredit, LotMovedAs;
      ghost var s := View();
      InvMatches(s);
      if !MoveLotCharity(s, lot, seen, g, toSale, env).Refused? { LotMoveMeans(s, lot, seen, g, toSale, env); }
      if lot >= |lots| { return Some(NotFound); }
      var l := lots[lot];
      if !seen { return Some(VersionConflict); }
      if g == 0 || g > l.charity { return Some(InsufficientStock); }
      if !toSale && g != l.charity { return Some(ValidationError); }
      MoveLotKeepsInv(s, lot, seen, g, toSale, env);
      if toSale {
        CreditLotIsPending(s, lot, g, env);
        Prepare(l.slot, env);
        PrepareKeepsRest(s, l.slot, env);
      }
      lots := lots[lot := Move(l, Charity, if toSale then Into(Sale) else Gone, g)];
      if toSale { CreditAndSettle(l.slot, env.period, 0); }
      history := history + [Entry(l.slot, if toSale then CharityToSale else CharityExport, g)];
      error := if l.source.FromBag? then None else Some(NotFound);
    }

    method RecordFigure(key: CounterKey, figure: Option<nat>)
      requires KeysMatch(View())
      modifies this`keys, this`counters
      ensures View() == ObserveFigure(old(View()), key, figure)
    {
      if figure.None? { return; }
      var observed := figure.value;
      if key in counters {
        var previous := counters[key];
        RecordCounter(key, Counter(if previous.pending then observed else previous.baseline, observed, previous.applied, false));
      } else {
        RecordCounter(key, Counter(0, observed, 0, false));
      }
    }

    /** A sales report of one store: every credited product's counters follow it and are settled. */
    method ApplySalesReport(store: Id, period: Period, figures: map<Id, Figures>)
      requires Inv(View())
      modifies this`lots, this`keys, this`counters
      ensures KeysMatch(old(View())) && View() == Observe(old(View()), store, period, figures)
      ensures Inv(View()) && ReportFollowed(old(View()), View(), store, period, figures)
    {
      hide Whole, Settle, Pending, ObserveFigure, ReportFollowed;
      ghost var s := View();
      InvMatches(s);
      ReportMeans(s, store, period, figures);
      var products := ReportProducts(store, period);
      for i := 0 to |products|
        invariant Whole(View(), 0)
        invariant View() == ObserveProducts(s, store, period, figures, products[..i])
      {
        ObservedPrefix(s, store, period, figures, products, i);
        ghost var before := View();
        if products[i] !in figures { continue; }
        var slot := Slot(store, products[i]);
        InvMatches(View());
        RecordFigure(CounterKey(slot, period, ByWeight), figures[products[i]].byWeight);
        RecordFigure(CounterKey(slot, period, ByPiece), figures[products[i]].byPiece);
        ReportIsPending(before, slot, period, figures[products[i]]);
        var ok := SettleSlot(slot);
        assert ok;
        ObserveProductKeepsWhole(before, slot, period, figures[products[i]], 0);
      }
      PrefixOf(products);
    }

    /** Dispatch a Sale transfer.  Every line is checked and its portions are captured before any lot
    is written; the portions of all lines are then written back from their captured copies. */
    method CreateTransfer(source: Id, destination: Id, destinationOpen: bool, lines: seq<RequestLine>)
      returns (error: Option<Error>)
      requires Inv(View())
      modifies this`lots, this`transfers
      ensures Inv(View())
      ensures Answers(Dispatch(old(View()), source, destination, destinationOpen, lines), error, old(View()), View())
      ensures error.None? <==> CanDispatch(old(View()), source, destination, destinationOpen, lines)
      ensures error.None? ==> DispatchedAs(old(View()), View(), source, destination, lines)
    {
      hide CanDispatch, DispatchedAs;
      DispatchAnswers(View(), source, destination, destinationOpen, lines);
      hide Inv, Portions, Taken, Pool, Drain, Sum, LineError, FirstError, AllPortions, DrainLines, Apply, Move, TransferLines;
      ghost var s := View();
      if !destinationOpen || destination == source { return Some(ValidationError); }
      var consumed: seq<Portion> := [];
      var dispatched: seq<TransferLine> := [];
      NothingChecked(lots, source);
      for i := 0 to |lines|
        invariant View() == s && FirstError(lots, source, lines[..i]) == None
        invariant consumed == AllPortions(lots, source, lines[..i])
        invariant dispatched == TransferLines(lines[..i])
      {
        var line := lines[i];
        LineChecked(lots, source, lines, i);
        LineTaken(lots, source, lines, i);
        ComplaintIs(lots, source, line);
        if !line.active { return Some(ValidationError); }
        if line.bags == [] || 0 in line.bags { return Some(ValidationError); }
        var portions := TakeWeight(lots, Slot(source, line.product), Sale, Sum(line.bags));
        if portions.None? { return Some(InsufficientStock); }
        consumed := consumed + portions.value;
        dispatched := dispatched + [TransferLine(line.product, Sum(line.bags))];
      }
      PrefixOf(lines);
      if lines == [] || !DistinctProducts(lines) { return Some(ValidationError); }
      WriteBackLosesNothing(lots, source, lines);
      DispatchKeepsInv(s, source, destination, destinationOpen, lines);
      for j := 0 to |consumed|
        invariant View() == s.(lots := lots) && |lots| == |s.lots|
        invariant lots == Apply(s.lots, Sale, Transferred, consumed[..j])
      {
        var p := consumed[j];
        ApplyStep(s.lots, Sale, Transferred, consumed, j);
        lots := lots[p.index := Move(p.lot, Sale, Transferred, p.grams)];
      }
      PrefixOf(consumed);
      transfers := transfers + [Transfer(source, destination, dispatched, InTransit, 0)];
      error := None;
    }

    /** A line of a transfer arrives: a new lot, credited and settled. */
    method AddArrivedLot(slot: Slot, transfer: nat, g: nat, env: Env, ghost early: nat)
      requires Whole(View(), early)
      modifies this
      ensures KeysMatch(old(View())) && View() == ReceiveLine(old(View()), slot, transfer, g, env)
      ensures Whole(View(), early + g)
    {
      hide Whole, Settle, Pending, PrepareCredit, MarkCredit;
      WholeMatches(View(), early);
      PrepareKeepsWhole(View(), slot, env, early);
      PrepareKeepsRest(View(), slot, env);
      Prepare(slot, env);
      ArrivalIsPending(View(), slot, transfer, g, early);
      lots := lots + [ArrivedLot(slot, transfer, g)];
      CreditAndSettle(slot, env.period, early + g);
    }

    /** A line of a withdrawn transfer comes back: a new lot, settled, no new baseline. */
    method AddReturnedLot(slot: Slot, transfer: nat, g: nat, ghost early: nat)
      requires Whole(View(), early)
      modifies this`lots, this`counters
      ensures KeysMatch(old(View())) && View() == ReturnLine(old(View()), slot, transfer, g)
      ensures Whole(View(), early + g)
    {
      hide Whole, Settle, Pending;
      WholeMatches(View(), early);
      ArrivalIsPending(View(), slot, transfer, g, early);
      lots := lots + [ArrivedLot(slot, transfer, g)];
      SettlePending(slot, early + g);
    }

    method AddArrivedLots(store: Id, transfer: nat, lines: seq<TransferLine>, env: Env)
      requires Whole(View(), 0)
      modifies this
      ensures KeysMatch(old(View())) && View() == ReceiveLines(old(View()), store, transfer, lines, env)
      ensures Whole(View(), LineGrams(lines))
    {
      hide *;
      ghost var s := View();
      WholeMatches(s, 0);
      NothingReceived(s, store, transfer, lines, env);
      for i := 0 to |lines|
        invariant Whole(View(), LineGrams(lines[..i]))
        invariant View() == ReceiveLines(s, store, transfer, lines[..i], env)
      {
        OneMoreReceived(s, store, transfer, lines, env, i);
        AddArrivedLot(Slot(store, lines[i].product), transfer, lines[i].grams, env, LineGrams(lines[..i]));
      }
      PrefixOf(lines);
    }

    method AddReturnedLots(store: Id, transfer: nat, lines: seq<TransferLine>)
      requires Whole(View(), 0)
      modifies this
      ensures KeysMatch(old(View())) && View() == ReturnLines(old(View()), store, transfer, lines)
      ensures Whole(View(), LineGrams(lines))
    {
      hide *;
      ghost var s := View();
      WholeMatches(s, 0);
      NothingReceived(s, store, transfer, lines, NO_FIGURES);
      for i := 0 to |lines|
        invariant Whole(View(), LineGrams(lines[..i]))
        invariant View() == ReturnLines(s, store, transfer, lines[..i])
      {
        OneMoreReceived(s, store, transfer, lines, NO_FIGURES, i);
        AddReturnedLot(Slot(store, lines[i].product), transfer, lines[i].grams, LineGrams(lines[..i]));
      }
      PrefixOf(lines);
    }

    /** Every line of a transfer in transit becomes a settled lot of the destination. */
    method ReceiveTransfer(transfer: nat, expectedVersion: nat, env: Env) returns (error: Option<Error>)
      requires Inv(View())
      modifies this
      ensures Inv(View())
      ensures KeysMatch(old(View())) && Answers(Receive(old(View()), transfer, expectedVersion, env), error, old(View()), View())
      ensures error == if transfer >= old(|transfers|) then Some(NotFound)
                       else if old(transfers)[transfer].status != InTransit || old(transfers)[transfer].version != expectedVersion
                       then Some(VersionConflict) else None
      ensures error.None? ==> ReceivedAs(old(View()), View(), transfer, env)
    {
      hide Whole, ReceiveLines, LineGrams, KeysMatch, ReceivedAs;
      InvMatches(View());
      if Receive(View(), transfer, expectedVersion, env).Done? { ReceiveMeans(View(), transfer, expectedVersion, env); }
      if transfer >= |transfers| { return Some(NotFound); }
      var t := transfers[transfer];
      if t.status != InTransit || t.version != expectedVersion { return Some(VersionConflict); }
      LinesKeepDocuments(View(), t.destination, transfer, t.lines, env);
      AddArrivedLots(t.destination, transfer, t.lines, env);
      CloseTransfer(View(), transfer, t.(status := Arrived, version := 1));
      transfers := transfers[transfer := t.(status := Arrived, version := 1)];
      error := None;
    }

    /** Every line of a transfer in transit becomes a settled lot of the store it left. */
    method CancelTransfer(transfer: nat, expectedVersion: nat) returns (error: Option<Error>)
      requires Inv(View())
      modifies this
      ensures Inv(View())
      ensures KeysMatch(old(View())) && Answers(Withdraw(old(View()), transfer, expectedVersion), error, old(View()), View())
      ensures error == if transfer >= old(|transfers|) then Some(NotFound)
                       else if old(transfers)[transfer].status != InTransit || old(transfers)[transfer].version != expectedVersion
                       then Some(VersionConflict) else None
      ensures error.None? ==> WithdrawnAs(old(View()), View(), transfer)
    {
      hide Whole, Withdraw, Answers, ReturnLines, LineGrams, KeysMatch, WithdrawnAs;
      InvMatches(View());
      ghost var s := View();
      WithdrawRefused(s, transfer, expectedVersion);
      if transfer >= |transfers| { return Some(NotFound); }
      var t := transfers[transfer];
      if t.status != InTransit || t.version != expectedVersion { return Some(VersionConflict); }
      var closed := t.(status := Withdrawn, version := t.version + 1);
      LinesKeepDocuments(s, t.source, transfer, t.lines, NO_FIGURES);
      AddReturnedLots(t.source, transfer, t.lines);
      ghost var returned := View();
      CloseTransfer(returned, transfer, closed);
      transfers := transfers[transfer := closed];
      WithdrawDone(s, returned, transfer, expectedVersion, closed, View());
      error := None;
    }

    /** The "sold" column of the sale breakdown.  It is what settlement applied; the clamp never acts. */
    method SoldByWeight(slot: Slot) returns (sold: int)
      requires Inv(View())
      ensures sold == AppliedIn(View(), slot)
    {
      hide Inv;
      var credited, remaining, out, moved: nat := 0, 0, 0, 0;
      NothingSummed();
      for i := 0 to |lots|
        invariant credited == Sum(Credited(lots[..i], slot))
        invariant remaining == Pool(lots[..i], slot, Sale)
        invariant out == Sum(TransferredOut(lots[..i], slot))
      {
        OneMoreLotSummed(lots[..i], lots[i], slot);
        assert lots[..i] + [lots[i]] == lots[..i + 1];
        if lots[i].slot == slot {
          credited, remaining, out := credited + lots[i].credited, remaining + lots[i].sale, out + lots[i].out;
        }
      }
      PrefixOf(lots);
      for i := 0 to |history|
        invariant moved == MovedOut(history[..i], slot)
      {
        EntryTotals(history[..i], history[i]);
        assert history[..i] + [history[i]] == history[..i + 1];
        if history[i].slot == slot && LeavesSale(history[i].action) { moved := moved + history[i].grams; }
      }
      PrefixOf(history);
      BreakdownIsExact(View(), slot);
      var soldByWeight := credited - remaining - out - moved;
      sold := if soldByWeight < 0 then 0 else soldByWeight;
    }

    method ReportProducts(store: Id, period: Period) returns (products: seq<Id>)
      ensures products == ReportedProducts(View(), lots, store, period)
    {
      products := [];
      for i := 0 to |lots|
        invariant products == ReportedProducts(View(), lots[..i], store, period)
      {
        var lot := lots[i];
        assert lots[..i + 1][..i] == lots[..i];
        if lot.slot.store == store && lot.credited > 0
           && (if lot.slot in firstCredit then firstCredit[lot.slot] else period) <= period
           && lot.slot.product !in products
        {
          products := products + [lot.slot.product];
        }
      }
      PrefixOf(lots);
    }
  }

  lemma ObservedPrefix(s: State, store: Id, period: Period, figures: map<Id, Figures>, products: seq<Id>, i: nat)
    requires KeysMatch(s) && i < |products|
    ensures var before := ObserveProducts(s, store, period, figures, products[..i]);
      ObserveProducts(s, store, period, figures, products[..i + 1])
      == if products[i] in figures then ObserveProduct(before, Slot(store, products[i]), period, figures[products[i]]) else before
  {
    assert products[..i + 1][..i] == products[..i];
  }

  lemma ReportIsPending(s: State, slot: Slot, period: Period, figures: Figures)
    requires Whole(s, 0)
    ensures KeysMatch(s)
    ensures var t := ObserveFigure(ObserveFigure(s, CounterKey(slot, period, ByWeight), figures.byWeight),
                                   CounterKey(slot, period, ByPiece), figures.byPiece);
      Known(t.counters, SlotKeys(t, slot)) && CanReverse(t.lots, slot, t.counters, SlotKeys(t, slot))
  {
    hide Books, SettledAt, ObserveFigure;
    assert KeysMatch(s) by { InvMatches(s); }
    var first := ObserveFigure(s, CounterKey(slot, period, ByWeight), figures.byWeight);
    ObserveFigureKeepsPending(s, CounterKey(slot, period, ByWeight), figures.byWeight, 0);
    ObserveFigureKeepsPending(first, CounterKey(slot, period, ByPiece), figures.byPiece, 0);
    PendingReverses(ObserveFigure(first, CounterKey(slot, period, ByPiece), figures.byPiece), slot, 0);
  }

  function Recorded(slot: Slot, action: Action, portions: seq<Portion>): seq<Entry> {
    seq(|portions|, i requires 0 <= i < |portions| => Entry(slot, action, portions[i].grams))
  }

  lemma {:induction false} RecordedUpTo(lots: seq<Lot>, slot: Slot, action: Action, t: seq<nat>, n: nat)
    requires n <= |lots| == |t|
    ensures Recorded(slot, action, Portions(lots, t, n)) == Entries(slot, action, t[..n])
  {
    if n > 0 {
      RecordedUpTo(lots, slot, action, t, n - 1);
      assert t[..n][..n - 1] == t[..n - 1];
      var before := Portions(lots, t, n - 1);
      if t[n - 1] == 0 {
        assert Portions(lots, t, n) == before;
      } else {
        assert Portions(lots, t, n) == before + [Portion(n - 1, lots[n - 1], t[n - 1])];
      }
    }
  }

  lemma RecordedPortions(lots: seq<Lot>, slot: Slot, from: Field, action: Action, g: nat)
    ensures var t := Taken(lots, slot, from, g);
      Recorded(slot, action, Portions(lots, t, |lots|)) == Entries(slot, action, t)
  {
    var t := Taken(lots, slot, from, g);
    RecordedUpTo(lots, slot, action, t, |lots|);
    PrefixOf(t);
  }

  lemma ApplyStep(lots: seq<Lot>, from: Field, to: Dest, portions: seq<Portion>, j: nat)
    requires j < |portions| && Fit(lots, from, portions)
    ensures Fit(lots, from, portions[..j]) && Fit(lots, from, portions[..j + 1])
    ensures var p := portions[j];
      p.index < |lots| && p.grams <= Weight(p.lot, from) && Apply(lots, from, to, portions[..j + 1]) == Apply(lots, from, to, portions[..j])[p.index := Move(p.lot, from, to, p.grams)]
  {
    hide Move;
    assert portions[..j + 1][..j] == portions[..j];
  }

  /** The object answered as the outcome says: the new state and no error, or the error and the old state. */
  ghost predicate Answers(outcome: Outcome, error: Option<Error>, before: State, after: State) {
    match outcome
    case Done(state) => error == None && after == state
    case Refused(e) => error == Some(e) && after == before
    case ChangedThenFailed(state) => error == Some(NotFound) && after == state
  }

  lemma InvMatches(s: State)
    requires Inv(s)
    ensures KeysMatch(s)
  {
  }

  lemma PendingReverses(s: State, slot: Slot, early: nat)
    requires Pending(s, slot, early)
    ensures KeysMatch(s) && Known(s.counters, SlotKeys(s, slot))
    ensures CanReverse(s.lots, slot, s.counters, SlotKeys(s, slot))
  {
    assert Balanced(s, slot);
    ReversalFits(s, slot);
  }

  lemma NothingSet(counters: Counters)
    ensures SetApplied(counters, [], []) == counters
  {
  }

  /** What the second pass leaves applied. */
  function Paid(counters: Counters, ks: seq<CounterKey>, pool: nat): (q: seq<nat>)
    requires forall k :: k in ks ==> k in counters
    ensures |q| == |ks|
  {
    var paid := FirstCome(Deficits(counters, ks), pool);
    seq(|ks|, i requires 0 <= i < |ks| => counters[ks[i]].applied + paid[i])
  }

  // ---------------------------------------------------------------------------------------------
  // Capturing all lines of a transfer before writing any
  // ---------------------------------------------------------------------------------------------

  /** What every line takes, all from the same, unchanged lots. */
  function AllPortions(lots: seq<Lot>, store: Id, lines: seq<RequestLine>): seq<Portion> {
    if |lines| == 0 then []
    else
      var line := lines[|lines| - 1];
      AllPortions(lots, store, lines[..|lines| - 1])
      + Portions(lots, Taken(lots, Slot(store, line.product), Sale, Sum(line.bags)), |lots|)
  }

  lemma NothingChecked(lots: seq<Lot>, store: Id)
    ensures FirstError(lots, store, []) == None && AllPortions(lots, store, []) == []
    ensures Apply(lots, Sale, Transferred, []) == lots
  {
  }

  /** The first complaint about a line is the complaint about the request. */
  lemma {:induction false} FirstErrorPrefix(lots: seq<Lot>, store: Id, lines: seq<RequestLine>, n: nat)
    requires n <= |lines| && FirstError(lots, store, lines[..n]).Some?
    ensures FirstError(lots, store, lines) == FirstError(lots, store, lines[..n])
  {
    hide LineError;
    if n < |lines| {
      assert lines[..|lines| - 1][..n] == lines[..n];
      FirstErrorPrefix(lots, store, lines[..|lines| - 1], n);
    } else {
      PrefixOf(lines);
    }
  }

  /** The complaint about the request once the lines before `i` passed. */
  lemma LineChecked(lots: seq<Lot>, store: Id, lines: seq<RequestLine>, i: nat)
    requires i < |lines| && FirstError(lots, store, lines[..i]).None?
    ensures FirstError(lots, store, lines[..i + 1]) == LineError(lots, store, lines[i])
    ensures LineError(lots, store, lines[i]).Some? ==> FirstError(lots, store, lines) == LineError(lots, store, lines[i])
  {
    hide LineError;
    assert lines[..i + 1][..i] == lines[..i];
    if FirstError(lots, store, lines[..i + 1]).Some? {
      FirstErrorPrefix(lots, store, lines, i + 1);
    }
  }

  lemma LineTaken(lots: seq<Lot>, store: Id, lines: seq<RequestLine>, i: nat)
    requires i < |lines|
    ensures var line := lines[i];
      && AllPortions(lots, store, lines[..i + 1])
         == AllPortions(lots, store, lines[..i]) + Portions(lots, Taken(lots, Slot(store, line.product), Sale, Sum(line.bags)), |lots|)
      && TransferLines(lines[..i + 1]) == TransferLines(lines[..i]) + [TransferLine(line.product, Sum(line.bags))]
  {
    hide Portions, Taken, Sum;
    assert lines[..i + 1][..i] == lines[..i];
  }

  lemma ComplaintIs(lots: seq<Lot>, store: Id, line: RequestLine)
    ensures LineError(lots, store, line)
         == if !line.active || line.bags == [] || 0 in line.bags then Some(ValidationError)
            else if Sum(line.bags) > Pool(lots, Slot(store, line.product), Sale) then Some(InsufficientStock) else None
    ensures line.bags != [] && 0 !in line.bags ==> Sum(line.bags) > 0
  {
    hide Pool, Sum;
    if line.bags != [] && 0 !in line.bags {
      SumAtLeast(line.bags, 0);
    }
  }

  lemma {:induction false} ApplyBoth(lots: seq<Lot>, from: Field, to: Dest, a: seq<Portion>, b: seq<Portion>)
    requires Fit(lots, from, a) && Fit(lots, from, b)
    ensures Fit(lots, from, a + b)
    ensures Apply(lots, from, to, a + b) == Apply(Apply(lots, from, to, a), from, to, b)
  {
    hide Move;
    if |b| == 0 {
      assert a + b == a;
    } else {
      ApplyBoth(lots, from, to, a, b[..|b| - 1]);
      assert (a + b)[..|a + b| - 1] == a + b[..|b| - 1];
    }
  }

  /** Lines of other products leave a product's lots alone. */
  lemma {:induction false} OtherLinesLeaveAlone(lots: seq<Lot>, store: Id, lines: seq<RequestLine>, slot: Slot)
    requires forall i :: 0 <= i < |lines| ==> slot != Slot(store, lines[i].product)
    ensures var r := DrainLines(lots, store, lines);
      forall i :: 0 <= i < |lots| ==> r[i].slot == lots[i].slot && (lots[i].slot == slot ==> r[i] == lots[i])
  {
    hide FirstCome, Sum;
    if |lines| > 0 {
      OtherLinesLeaveAlone(lots, store, lines[..|lines| - 1], slot);
    }
  }

  lemma {:induction false} PortionsOfSlot(lots: seq<Lot>, other: seq<Lot>, t: seq<nat>, n: nat)
    requires n <= |lots| == |t| == |other|
    requires forall i :: 0 <= i < |t| && t[i] != 0 ==> other[i] == lots[i]
    ensures Portions(lots, t, n) == Portions(other, t, n)
  {
    if n > 0 {
      PortionsOfSlot(lots, other, t, n - 1);
    }
  }

  /** The lines name distinct products, so the captured lots are disjoint: writing all portions back
  from their captured copies is taking line after line. */
  lemma {:induction false} WriteBackLosesNothing(lots: seq<Lot>, store: Id, lines: seq<RequestLine>)
    requires DistinctProducts(lines)
    ensures Fit(lots, Sale, AllPortions(lots, store, lines))
    ensures Apply(lots, Sale, Transferred, AllPortions(lots, store, lines)) == DrainLines(lots, store, lines)
  {
    hide Apply, Portions, Taken, Sum, Drain, Fit;
    if |lines| == 0 {
      NothingChecked(lots, store);
      NothingFits(lots);
    } else {
      var n := |lines| - 1;
      var slot, g := Slot(store, lines[n].product), Sum(lines[n].bags);
      assert forall i :: 0 <= i < n ==> lines[..n][i] == lines[i] && lines[i].product != lines[n].product;
      WriteBackLosesNothing(lots, store, lines[..n]);
      OtherLinesLeaveAlone(lots, store, lines[..n], slot);
      var before := DrainLines(lots, store, lines[..n]);
      var t := Taken(lots, slot, Sale, g);
      assert Taken(before, slot, Sale, g) == t by { SameSlotSameTaken(lots, before, slot, g); }
      PortionsOfSlot(lots, before, t, |lots|);
      ApplyTaken(before, slot, Sale, Transferred, g);
      var b := Portions(lots, t, |lots|);
      FitElsewhere(before, lots, Sale, b);
      ApplyBoth(lots, Sale, Transferred, AllPortions(lots, store, lines[..n]), b);
    }
  }

  lemma NothingFits(lots: seq<Lot>)
    ensures Fit(lots, Sale, [])
  {
  }

  lemma FitElsewhere(lots: seq<Lot>, other: seq<Lot>, from: Field, portions: seq<Portion>)
    requires |lots| == |other| && Fit(lots, from, portions)
    ensures Fit(other, from, portions)
  {
  }

  lemma SameSlotSameTaken(lots: seq<Lot>, other: seq<Lot>, slot: Slot, g: nat)
    requires |lots| == |other|
    requires forall i :: 0 <= i < |lots| ==> other[i].slot == lots[i].slot && (lots[i].slot == slot ==> other[i] == lots[i])
    ensures Taken(other, slot, Sale, g) == Taken(lots, slot, Sale, g)
  {
    assert Amounts(other, slot, Sale) == Amounts(lots, slot, Sale);
  }

  // ---------------------------------------------------------------------------------------------
  // Lines one by one
  // ---------------------------------------------------------------------------------------------

  lemma DispatchAnswers(s: State, source: Id, destination: Id, open: bool, lines: seq<RequestLine>)
    ensures forall error, after :: Answers(Dispatch(s, source, destination, open, lines), error, s, after) ==>
      && (error.None? <==> CanDispatch(s, source, destination, open, lines))
      && (error.None? ==> DispatchedAs(s, after, source, destination, lines))
  {
    DispatchedWhen(s, source, destination, open, lines);
    hide CanDispatch, DispatchedAs, FirstError, DrainLines;
    if Dispatch(s, source, destination, open, lines).Done? { DispatchMeans(s, source, destination, open, lines); }
  }

  lemma WithdrawRefused(s: State, transfer: nat, expectedVersion: nat)
    requires KeysMatch(s)
    ensures transfer >= |s.transfers| ==> Answers(Withdraw(s, transfer, expectedVersion), Some(NotFound), s, s)
    ensures transfer < |s.transfers| && (s.transfers[transfer].status != InTransit || s.transfers[transfer].version != expectedVersion) ==>
      Answers(Withdraw(s, transfer, expectedVersion), Some(VersionConflict), s, s)
  {
    hide ReturnLines, KeysMatch;
  }

  lemma WithdrawDone(s: State, returned: State, transfer: nat, expectedVersion: nat, closed: Transfer, after: State)
    requires Inv(s) && KeysMatch(s) && transfer < |s.transfers| && returned.transfers == s.transfers
    requires s.transfers[transfer].status == InTransit && s.transfers[transfer].version == expectedVersion
    requires closed == s.transfers[transfer].(status := Withdrawn, version := s.transfers[transfer].version + 1)
    requires returned == ReturnLines(s, s.transfers[transfer].source, transfer, s.transfers[transfer].lines)
    requires after == returned.(transfers := returned.transfers[transfer := closed])
    ensures Answers(Withdraw(s, transfer, expectedVersion), None, s, after) && WithdrawnAs(s, after, transfer)
  {
    hide Inv, ReturnLines, KeysMatch, WithdrawnAs;
    WithdrawMeans(s, transfer, expectedVersion, NO_FIGURES);
  }

  lemma WholeMatches(s: State, early: nat)
    requires Whole(s, early)
    ensures KeysMatch(s)
  {
  }

  lemma NothingReceived(s: State, store: Id, transfer: nat, lines: seq<TransferLine>, env: Env)
    requires KeysMatch(s)
    ensures LineGrams(lines[..0]) == 0
    ensures ReceiveLines(s, store, transfer, lines[..0], env) == s && ReturnLines(s, store, transfer, lines[..0]) == s
  {
  }

  lemma OneMoreReceived(s: State, store: Id, transfer: nat, lines: seq<TransferLine>, env: Env, i: nat)
    requires KeysMatch(s) && i < |lines|
    ensures LineGrams(lines[..i + 1]) == LineGrams(lines[..i]) + lines[i].grams
    ensures ReceiveLines(s, store, transfer, lines[..i + 1], env)
         == ReceiveLine(ReceiveLines(s, store, transfer, lines[..i], env), Slot(store, lines[i].product), transfer, lines[i].grams, env)
    ensures ReturnLines(s, store, transfer, lines[..i + 1])
         == ReturnLine(ReturnLines(s, store, transfer, lines[..i]), Slot(store, lines[i].product), transfer, lines[i].grams)
  {
    hide ReceiveLine, ReturnLine;
    assert lines[..i + 1][..i] == lines[..i];
  }

  lemma NothingSummed()
    ensures forall slot :: Sum(Credited([], slot)) == 0 && Pool([], slot, Sale) == 0 && Sum(TransferredOut([], slot)) == 0
    ensures forall slot :: MovedOut([], slot) == 0
  {
  }

  lemma OneMoreLotSummed(lots: seq<Lot>, lot: Lot, slot: Slot)
    ensures Sum(Credited(lots + [lot], slot)) == Sum(Credited(lots, slot)) + if lot.slot == slot then lot.credited else 0
    ensures Sum(TransferredOut(lots + [lot], slot)) == Sum(TransferredOut(lots, slot)) + if lot.slot == slot then lot.out else 0
    ensures Pool(lots + [lot], slot, Sale) == Pool(lots, slot, Sale) + if lot.slot == slot then lot.sale else 0
  {
    assert Credited(lots + [lot], slot)[..|lots|] == Credited(lots, slot);
    assert TransferredOut(lots + [lot], slot)[..|lots|] == TransferredOut(lots, slot);
    assert Amounts(lots + [lot], slot, Sale)[..|lots|] == Amounts(lots, slot, Sale);
  }
}
