/** What transfers between stores do to lots and counters, told by their fields. */
module SaleTravels {
  import opened Common
  import opened Quantities
  import opened SaleLots
  import opened SaleSettlement
  import opened SalePool
  import opened SaleInvariants
  import opened SaleRuns
  import opened SaleMeaning

  // ---------------------------------------------------------------------------------------------
  // Leaving
  // ---------------------------------------------------------------------------------------------

  /** What the lines ask of a slot. */
  function AskedOf(lines: seq<RequestLine>, store: Id, x: Slot): nat {
    Total(lines, (l: RequestLine) => if l.product == x.product && store == x.store then Sum(l.bags) else 0)
  }

  /** Lots that lost Sale weight only, all of it sent away, the oldest first; each slot by what was asked. */
  ghost predicate SentAway(before: seq<Lot>, after: seq<Lot>, store: Id, lines: seq<RequestLine>) {
    && |after| == |before|
    && (forall i :: 0 <= i < |before| ==>
          && after[i].sale <= before[i].sale
          && after[i] == before[i].(sale := after[i].sale, out := before[i].out + before[i].sale - after[i].sale))
    && (forall i, j :: 0 <= i < j < |before| && before[i].slot == before[j].slot && after[j].sale < before[j].sale ==> after[i].sale == 0)
    && (forall x :: SaleIn(after, x) + AskedOf(lines, store, x) == SaleIn(before, x) && SentIn(after, x) == SentIn(before, x) + AskedOf(lines, store, x))
  }

  lemma LineSent(lots: seq<Lot>, slot: Slot, g: nat)
    requires g <= Pool(lots, slot, Sale)
    ensures var t := Drain(lots, slot, Sale, Transferred, g);
      && (forall i :: 0 <= i < |lots| ==>
            && t[i].sale <= lots[i].sale && (lots[i].slot != slot ==> t[i] == lots[i])
            && t[i] == lots[i].(sale := t[i].sale, out := lots[i].out + lots[i].sale - t[i].sale))
      && (forall i, j :: 0 <= i < j < |lots| && lots[i].slot == slot && t[j].sale < lots[j].sale ==> t[i].sale == 0)
      && (forall x :: SaleIn(t, x) == SaleIn(lots, x) - (if x == slot then g else 0) && SentIn(t, x) == SentIn(lots, x) + (if x == slot then g else 0))
  {
    hide SaleIn, SentIn, Pool, FirstCome, Drain;
    MovedRows(lots, slot, Sale, Transferred, g);
    var t := Drain(lots, slot, Sale, Transferred, g);
    forall i | 0 <= i < |lots|
      ensures t[i].sale <= lots[i].sale && t[i] == lots[i].(sale := t[i].sale, out := lots[i].out + lots[i].sale - t[i].sale)
    {
      DrainAt(lots, slot, Sale, Transferred, g, i);
    }
    forall x
      ensures SaleIn(t, x) == SaleIn(lots, x) - (if x == slot then g else 0) && SentIn(t, x) == SentIn(lots, x) + (if x == slot then g else 0)
    {
      DrainedSale(lots, slot, Sale, Transferred, g, x);
      DrainedOut(lots, slot, Sale, Transferred, g, x);
    }
  }

  lemma OneMoreAsked(lines: seq<RequestLine>, line: RequestLine, store: Id, x: Slot)
    ensures AskedOf(lines + [line], store, x)
         == AskedOf(lines, store, x) + if x == Slot(store, line.product) then Sum(line.bags) else 0
  {
    TotalPush(lines, line, (l: RequestLine) => if l.product == x.product && store == x.store then Sum(l.bags) else 0);
  }

  lemma OneMoreSent(lots: seq<Lot>, before: seq<Lot>, after: seq<Lot>, store: Id, lines: seq<RequestLine>, line: RequestLine)
    requires SentAway(lots, before, store, lines) && (forall i :: 0 <= i < |lines| ==> lines[i].product != line.product)
    requires forall i :: 0 <= i < |lots| && lots[i].slot == Slot(store, line.product) ==> before[i] == lots[i]
    requires Sum(line.bags) <= Pool(before, Slot(store, line.product), Sale)
    requires after == Drain(before, Slot(store, line.product), Sale, Transferred, Sum(line.bags))
    ensures SentAway(lots, after, store, lines + [line])
    ensures forall i :: 0 <= i < |lots| && lots[i].slot != Slot(store, line.product) ==> after[i] == before[i]
  {
    hide SaleIn, SentIn, Drain, Pool, Sum, AskedOf;
    LineSent(before, Slot(store, line.product), Sum(line.bags));
    forall x { OneMoreAsked(lines, line, store, x); }
  }

  lemma {:induction false} LinesSent(lots: seq<Lot>, store: Id, lines: seq<RequestLine>)
    requires DistinctProducts(lines)
    requires forall i :: 0 <= i < |lines| ==> Sum(lines[i].bags) <= Pool(lots, Slot(store, lines[i].product), Sale)
    ensures SentAway(lots, DrainLines(lots, store, lines), store, lines)
    ensures forall i :: 0 <= i < |lots| && (forall j :: 0 <= j < |lines| ==> lots[i].slot != Slot(store, lines[j].product)) ==>
      DrainLines(lots, store, lines)[i] == lots[i]
  {
    hide SaleIn, SentIn, Drain, Pool, Sum, AskedOf, SentAway;
    if |lines| == 0 {
      NothingSent(lots, store);
    } else {
      var front, line := lines[..|lines| - 1], lines[|lines| - 1];
      assert lines == front + [line];
      assert forall i :: 0 <= i < |front| ==> front[i] == lines[i] && lines[i].product != line.product;
      LinesSent(lots, store, front);
      var before, slot := DrainLines(lots, store, front), Slot(store, line.product);
      assert forall i :: 0 <= i < |lots| && lots[i].slot == slot ==> before[i] == lots[i];
      SamePool(lots, before, slot, store, front);
      OneMoreSent(lots, before, DrainLines(lots, store, lines), store, front, line);
    }
  }

  lemma NothingSent(lots: seq<Lot>, store: Id)
    ensures SentAway(lots, lots, store, [])
  {
    hide SaleIn, SentIn;
  }

  lemma SamePool(lots: seq<Lot>, before: seq<Lot>, slot: Slot, store: Id, lines: seq<RequestLine>)
    requires SentAway(lots, before, store, lines) && forall i :: 0 <= i < |lots| && lots[i].slot == slot ==> before[i] == lots[i]
    ensures Pool(before, slot, Sale) == Pool(lots, slot, Sale)
  {
    hide SaleIn, SentIn, AskedOf;
    assert Amounts(before, slot, Sale) == Amounts(lots, slot, Sale);
  }

  /** A dispatch takes every line's weight from the source's lots and puts the transfer on the road. */
  ghost predicate DispatchedAs(before: State, after: State, source: Id, destination: Id, lines: seq<RequestLine>) {
    && after == before.(lots := after.lots, transfers := after.transfers)
    && SentAway(before.lots, after.lots, source, lines)
    && |after.transfers| == |before.transfers| + 1 && before.transfers <= after.transfers
    && var t := after.transfers[|before.transfers|];
    && t.source == source && t.destination == destination && t.status == InTransit && t.version == 0 && |t.lines| == |lines|
    && forall i :: 0 <= i < |lines| ==> t.lines[i].product == lines[i].product && t.lines[i].grams == Sum(lines[i].bags)
  }

  lemma LineErrorWhen(lots: seq<Lot>, store: Id, line: RequestLine)
    ensures LineError(lots, store, line).None?
      <==> && line.active && line.bags != [] && (forall b :: b in line.bags ==> b > 0)
           && Sum(line.bags) <= SaleIn(lots, Slot(store, line.product))
  {
    PoolsAre(lots, Slot(store, line.product));
    hide SaleIn, Pool, Sum;
  }

  lemma {:induction false} FirstErrorWhen(lots: seq<Lot>, store: Id, lines: seq<RequestLine>)
    ensures FirstError(lots, store, lines).None? <==> forall i :: 0 <= i < |lines| ==>
      && lines[i].active && lines[i].bags != [] && (forall b :: b in lines[i].bags ==> b > 0)
      && Sum(lines[i].bags) <= SaleIn(lots, Slot(store, lines[i].product))
  {
    hide LineError, SaleIn, Sum;
    if |lines| > 0 {
      FirstErrorWhen(lots, store, lines[..|lines| - 1]);
      LineErrorWhen(lots, store, lines[|lines| - 1]);
      assert forall i :: 0 <= i < |lines| - 1 ==> lines[i] == lines[..|lines| - 1][i];
    }
  }

  /** A dispatch needs another open store, different products, and active lines with weight in every bag that
  the source's Sale lots hold. */
  ghost predicate CanDispatch(s: State, source: Id, destination: Id, open: bool, lines: seq<RequestLine>) {
    && open && destination != source && lines != []
    && (forall i, j :: 0 <= i < j < |lines| ==> lines[i].product != lines[j].product)
    && (forall i :: 0 <= i < |lines| ==>
          && lines[i].active && lines[i].bags != [] && (forall b :: b in lines[i].bags ==> b > 0)
          && Sum(lines[i].bags) <= SaleIn(s.lots, Slot(source, lines[i].product)))
  }

  lemma DispatchedWhen(s: State, source: Id, destination: Id, open: bool, lines: seq<RequestLine>)
    ensures Dispatch(s, source, destination, open, lines).Done? <==> CanDispatch(s, source, destination, open, lines)
  {
    hide SaleIn, Sum, DrainLines, FirstError;
    FirstErrorWhen(s.lots, source, lines);
  }

  lemma DispatchMeans(s: State, source: Id, destination: Id, open: bool, lines: seq<RequestLine>)
    requires Dispatch(s, source, destination, open, lines).Done?
    ensures DispatchedAs(s, Dispatch(s, source, destination, open, lines).state, source, destination, lines)
  {
    hide Pool, Sum, SentAway, DrainLines, FirstError;
    NoError(s.lots, source, lines);
    LinesSent(s.lots, source, lines);
  }

  // ---------------------------------------------------------------------------------------------
  // Arriving
  // ---------------------------------------------------------------------------------------------

  /** What the lines of a transfer bring to a slot. */
  function BroughtTo(lines: seq<TransferLine>, store: Id, x: Slot): nat {
    Total(lines, (l: TransferLine) => if l.product == x.product && store == x.store then l.grams else 0)
  }

  ghost predicate IsBrought(lines: seq<TransferLine>, store: Id, x: Slot) {
    exists l :: l in lines && l.product == x.product && store == x.store
  }

  /** Each line became a lot of the store: all Sale weight, credited, of the transfer.  What was there keeps
  its buckets and credits; slots that got nothing stay. */
  ghost predicate LotsArrived(before: seq<Lot>, after: seq<Lot>, store: Id, transfer: nat, lines: seq<TransferLine>) {
    && |after| == |before| + |lines|
    && (forall i :: 0 <= i < |before| ==> after[i] == before[i].(sale := after[i].sale))
    && (forall i :: 0 <= i < |lines| ==>
          after[|before| + i] == Lot(Slot(store, lines[i].product), FromTransfer(transfer), after[|before| + i].sale, 0, 0, lines[i].grams, 0))
    && (forall x :: !IsBrought(lines, store, x) ==> SaleIn(after, x) == SaleIn(before, x))
  }

  /** Counters are only added, and keep what they follow. */
  ghost predicate CountersKept(before: Counters, after: Counters) {
    forall k :: k in before ==> k in after && after[k] == before[k].(applied := after[k].applied)
  }

  /** The lines arrived, and every slot has what they brought beside what it had, in Sale or applied to sales. */
  ghost predicate AllArrived(before: State, after: State, store: Id, transfer: nat, lines: seq<TransferLine>) {
    && after == before.(lots := after.lots, keys := after.keys, counters := after.counters, firstCredit := after.firstCredit)
    && LotsArrived(before.lots, after.lots, store, transfer, lines) && CountersKept(before.counters, after.counters)
    && (forall x :: SaleIn(after.lots, x) + AppliedIn(after, x) == SaleIn(before.lots, x) + AppliedIn(before, x) + BroughtTo(lines, store, x))
  }

  /** A first arrival of the month gives the slot its counters, and a first one ever its month. */
  ghost predicate Welcomed(before: State, after: State, store: Id, lines: seq<TransferLine>, env: Env) {
    && (forall x, kind :: IsBrought(lines, store, x) && SaleIn(before.lots, x) == 0 ==> CounterKey(x, env.period, kind) in after.counters)
    && (forall k :: k in after.counters && k !in before.counters ==>
          && k.period == env.period && IsBrought(lines, store, k.slot)
          && match FigureFor(env, k.slot, k.kind)
             case Some(v) => after.counters[k].baseline == after.counters[k].observed == v && !after.counters[k].pending
             case None => after.counters[k].baseline == after.counters[k].observed == 0 && after.counters[k].pending)
    && (forall x :: x in before.firstCredit ==> x in after.firstCredit && after.firstCredit[x] == before.firstCredit[x])
    && (forall x :: x !in before.firstCredit ==>
          (x in after.firstCredit <==> IsBrought(lines, store, x)) && (x in after.firstCredit ==> after.firstCredit[x] == env.period))
  }

  /** One line arrives: a lot joins, and its slot is settled. */
  ghost predicate OneArrived(before: State, after: State, slot: Slot, transfer: nat, g: nat) {
    && after == before.(lots := after.lots, keys := after.keys, counters := after.counters, firstCredit := after.firstCredit)
    && OnlySale(before.lots + [Lot(slot, FromTransfer(transfer), g, 0, 0, g, 0)], after.lots, slot)
    && CountersKept(before.counters, after.counters)
    && (forall x :: SaleIn(after.lots, x) + AppliedIn(after, x) == SaleIn(before.lots, x) + AppliedIn(before, x) + (if x == slot then g else 0))
  }

  lemma JoinedSale(lots: seq<Lot>, slot: Slot, transfer: nat, g: nat)
    ensures forall x :: SaleIn(lots + [Lot(slot, FromTransfer(transfer), g, 0, 0, g, 0)], x) == SaleIn(lots, x) + (if x == slot then g else 0)
  {
    hide SaleIn;
    LotJoined(lots, Lot(slot, FromTransfer(transfer), g, 0, 0, g, 0));
  }

  lemma CreditedAreKept(before: State, after: State, slot: Slot, env: Env)
    requires CountersCredited(before, after, slot, env)
    ensures CountersKept(before.counters, after.counters)
  {
    hide SaleIn;
  }

  lemma LineReceived(s: State, slot: Slot, transfer: nat, g: nat, env: Env, early: nat)
    requires Whole(s, early)
    ensures KeysMatch(s) && var t := ReceiveLine(s, slot, transfer, g, env);
      OneArrived(s, t, slot, transfer, g) && CountersCredited(s, t, slot, env) && FirstCredited(s, t, slot, env.period)
  {
    assert KeysMatch(s);
    hide Whole, Pending, PrepareCredit, Settle, MarkCredit, SaleIn, AppliedIn, KeysMatch, CountersCredited, FirstCredited, OnlySale;
    var prepared := PrepareCredit(s, slot, env);
    PrepareKeepsWhole(s, slot, env, early);
    PreparedCounters(s, slot, env);
    ArrivalIsPending(prepared, slot, transfer, g, early);
    var arrived := prepared.(lots := s.lots + [ArrivedLot(slot, transfer, g)]);
    CreditIs(s, arrived, slot, env, early + g);
    CreditedAreKept(s, ReceiveLine(s, slot, transfer, g, env), slot, env);
    JoinedSale(s.lots, slot, transfer, g);
  }

  lemma LineReturned(s: State, slot: Slot, transfer: nat, g: nat, early: nat)
    requires Whole(s, early)
    ensures KeysMatch(s) && var t := ReturnLine(s, slot, transfer, g);
      OneArrived(s, t, slot, transfer, g) && t.firstCredit == s.firstCredit && t.counters.Keys == s.counters.Keys
  {
    assert KeysMatch(s);
    hide Whole, Pending, Balanced, Settle, SaleIn, AppliedIn, KeysMatch, OnlySale, OnlyApplied, TargetIn, OneArrived;
    var arrived := s.(lots := s.lots + [ArrivedLot(slot, transfer, g)]);
    ArrivalIsPending(s, slot, transfer, g, early);
    PendingParts(arrived, slot, early + g);
    SettledRows(arrived, slot);
    SettledTotals(arrived, slot);
    ReturnedAs(s, arrived, ReturnLine(s, slot, transfer, g), slot, transfer, g);
  }

  lemma ReturnedAs(s: State, arrived: State, t: State, slot: Slot, transfer: nat, g: nat)
    requires arrived == s.(lots := s.lots + [Lot(slot, FromTransfer(transfer), g, 0, 0, g, 0)])
    requires t == arrived.(lots := t.lots, counters := t.counters)
    requires OnlySale(arrived.lots, t.lots, slot) && OnlyApplied(arrived.counters, t.counters, slot)
    requires SaleIn(t.lots, slot) + AppliedIn(t, slot) == SaleIn(arrived.lots, slot) + AppliedIn(arrived, slot)
    requires forall x :: x != slot ==> AppliedIn(t, x) == AppliedIn(arrived, x)
    ensures OneArrived(s, t, slot, transfer, g) && t.firstCredit == s.firstCredit && t.counters.Keys == s.counters.Keys
  {
    hide SaleIn, AppliedIn, OnlySale;
    OnlySaleKeeps(arrived.lots, t.lots, slot);
    SameApplied(s, arrived);
    JoinedSale(s.lots, slot, transfer, g);
  }

  lemma OneMoreBrought(lines: seq<TransferLine>, line: TransferLine, store: Id, x: Slot)
    ensures BroughtTo(lines + [line], store, x) == BroughtTo(lines, store, x) + if x == Slot(store, line.product) then line.grams else 0
    ensures IsBrought(lines + [line], store, x) <==> IsBrought(lines, store, x) || x == Slot(store, line.product)
  {
    TotalPush(lines, line, (l: TransferLine) => if l.product == x.product && store == x.store then l.grams else 0);
    assert line in lines + [line];
  }

  lemma OneMoreLot(before: seq<Lot>, mid: seq<Lot>, after: seq<Lot>, store: Id, transfer: nat, lines: seq<TransferLine>, line: TransferLine)
    requires LotsArrived(before, mid, store, transfer, lines)
    requires OnlySale(mid + [Lot(Slot(store, line.product), FromTransfer(transfer), line.grams, 0, 0, line.grams, 0)], after, Slot(store, line.product))
    ensures LotsArrived(before, after, store, transfer, lines + [line])
  {
    var slot := Slot(store, line.product);
    JoinedSale(mid, slot, transfer, line.grams);
    OnlySaleKeeps(mid + [Lot(slot, FromTransfer(transfer), line.grams, 0, 0, line.grams, 0)], after, slot);
    hide SaleIn, CharityIn, CancelIn, CreditedIn, SentIn, IsBrought;
    forall x | !IsBrought(lines + [line], store, x) ensures SaleIn(after, x) == SaleIn(before, x) {
      OneMoreBrought(lines, line, store, x);
    }
  }

  lemma OneMoreArrived(s: State, mid: State, after: State, store: Id, transfer: nat, lines: seq<TransferLine>, line: TransferLine)
    requires AllArrived(s, mid, store, transfer, lines) && OneArrived(mid, after, Slot(store, line.product), transfer, line.grams)
    ensures AllArrived(s, after, store, transfer, lines + [line])
  {
    hide SaleIn, AppliedIn, LotsArrived, OnlySale, BroughtTo, IsBrought;
    OneMoreLot(s.lots, mid.lots, after.lots, store, transfer, lines, line);
    forall x { OneMoreBrought(lines, line, store, x); }
  }

  lemma NothingArrived(s: State, store: Id, transfer: nat, env: Env)
    ensures AllArrived(s, s, store, transfer, []) && Welcomed(s, s, store, [], env)
  {
    hide SaleIn, AppliedIn;
  }

  lemma OneMoreWelcomed(s: State, mid: State, after: State, store: Id, transfer: nat, lines: seq<TransferLine>, line: TransferLine, env: Env)
    requires AllArrived(s, mid, store, transfer, lines) && Welcomed(s, mid, store, lines, env)
    requires var slot := Slot(store, line.product); CountersCredited(mid, after, slot, env) && FirstCredited(mid, after, slot, env.period)
    ensures Welcomed(s, after, store, lines + [line], env)
  {
    hide SaleIn, AppliedIn, BroughtTo, IsBrought, FigureFor;
    forall x ensures IsBrought(lines + [line], store, x) <==> IsBrought(lines, store, x) || x == Slot(store, line.product) {
      OneMoreBrought(lines, line, store, x);
    }
  }

  lemma {:induction false} LinesReceived(s: State, store: Id, transfer: nat, lines: seq<TransferLine>, env: Env)
    requires Whole(s, 0)
    ensures KeysMatch(s) && var t := ReceiveLines(s, store, transfer, lines, env);
      AllArrived(s, t, store, transfer, lines) && Welcomed(s, t, store, lines, env)
  {
    assert KeysMatch(s);
    hide Whole, KeysMatch, LineGrams, ReceiveLine, AllArrived, Welcomed, OneArrived, CountersCredited, FirstCredited;
    if lines == [] {
      NothingArrived(s, store, transfer, env);
    } else {
      var front, line := lines[..|lines| - 1], lines[|lines| - 1];
      assert lines == front + [line];
      LinesReceived(s, store, transfer, front, env);
      ReceiveLinesKeepWhole(s, store, transfer, front, env);
      var mid := ReceiveLines(s, store, transfer, front, env);
      LineReceived(mid, Slot(store, line.product), transfer, line.grams, env, LineGrams(front));
      var t := ReceiveLine(mid, Slot(store, line.product), transfer, line.grams, env);
      OneMoreArrived(s, mid, t, store, transfer, front, line);
      OneMoreWelcomed(s, mid, t, store, transfer, front, line, env);
    }
  }

  lemma {:induction false} LinesReturned(s: State, store: Id, transfer: nat, lines: seq<TransferLine>)
    requires Whole(s, 0)
    ensures KeysMatch(s) && var t := ReturnLines(s, store, transfer, lines);
      && AllArrived(s, t, store, transfer, lines) && t.firstCredit == s.firstCredit && t.counters.Keys == s.counters.Keys
  {
    assert KeysMatch(s);
    hide Whole, KeysMatch, LineGrams, ReturnLine, AllArrived, OneArrived;
    if lines == [] {
      NothingArrived(s, store, transfer, NO_FIGURES);
    } else {
      var front, line := lines[..|lines| - 1], lines[|lines| - 1];
      assert lines == front + [line];
      LinesReturned(s, store, transfer, front);
      ReturnLinesKeepWhole(s, store, transfer, front);
      var mid := ReturnLines(s, store, transfer, front);
      LineReturned(mid, Slot(store, line.product), transfer, line.grams, LineGrams(front));
      OneMoreArrived(s, mid, ReturnLine(mid, Slot(store, line.product), transfer, line.grams), store, transfer, front, line);
    }
  }

  /** A transfer in transit is received once, by its destination. */
  ghost predicate ReceivedAs(before: State, after: State, transfer: nat, env: Env) {
    && transfer < |before.transfers| == |after.transfers| && var t := before.transfers[transfer];
    && t.status == InTransit
    && after.transfers == before.transfers[transfer := t.(status := Arrived, version := 1)]
    && AllArrived(before, after.(transfers := before.transfers), t.destination, transfer, t.lines)
    && Welcomed(before, after.(transfers := before.transfers), t.destination, t.lines, env)
  }

  /** A transfer in transit is withdrawn once, back to its source. */
  ghost predicate WithdrawnAs(before: State, after: State, transfer: nat) {
    && transfer < |before.transfers| == |after.transfers| && var t := before.transfers[transfer];
    && t.status == InTransit
    && after.transfers == before.transfers[transfer := t.(status := Withdrawn, version := t.version + 1)]
    && AllArrived(before, after.(transfers := before.transfers), t.source, transfer, t.lines)
    && after.firstCredit == before.firstCredit && after.counters.Keys == before.counters.Keys
  }

  lemma ReceiveMeans(s: State, transfer: nat, expectedVersion: nat, env: Env)
    requires Inv(s) && Receive(s, transfer, expectedVersion, env).Done?
    ensures ReceivedAs(s, Receive(s, transfer, expectedVersion, env).state, transfer, env)
  {
    assert KeysMatch(s);
    var t := s.transfers[transfer];
    LinesReceived(s, t.destination, transfer, t.lines, env);
    LinesKeepDocuments(s, t.destination, transfer, t.lines, env);
    hide Whole, KeysMatch, ReceiveLines, AllArrived, Welcomed;
    SameArrival(s, ReceiveLines(s, t.destination, transfer, t.lines, env), Receive(s, transfer, expectedVersion, env).state);
  }

  lemma SameArrival(s: State, a: State, b: State)
    requires b == a.(transfers := b.transfers) && a.transfers == s.transfers
    ensures b.(transfers := s.transfers) == a
  {
  }

  lemma WithdrawMeans(s: State, transfer: nat, expectedVersion: nat, env: Env)
    requires Inv(s) && Withdraw(s, transfer, expectedVersion).Done?
    ensures WithdrawnAs(s, Withdraw(s, transfer, expectedVersion).state, transfer)
  {
    assert KeysMatch(s);
    var t := s.transfers[transfer];
    LinesReturned(s, t.source, transfer, t.lines);
    LinesKeepDocuments(s, t.source, transfer, t.lines, env);
    hide Whole, KeysMatch, ReturnLines, AllArrived;
    SameArrival(s, ReturnLines(s, t.source, transfer, t.lines), Withdraw(s, transfer, expectedVersion).state);
  }
}
