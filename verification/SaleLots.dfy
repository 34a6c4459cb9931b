/** Sorted lots of a store and the three ways weight leaves them, enters them and returns to them.

Weights are grams.  A lot is created when a bag is first sorted or a transfer arrives; it is
identified by its place in the list, which is also its age.  The running totals kept beside the
lots (what was ever credited to Sale, and what was transferred out of Sale) are fields of the lot. */
module SaleLots {
  import opened Common
  import opened Quantities

  /** Weight is pooled per store and product. */
  datatype Slot = Slot(store: Id, product: Id)

  datatype Field = Sale | Charity | Cancel

  datatype Source = FromBag(bag: nat) | FromTransfer(transfer: nat)

  datatype Lot = Lot(slot: Slot, source: Source, sale: nat, charity: nat, cancel: nat, credited: nat, out: nat)

  /** Where weight goes: into another bucket, to another store, or out of the system. */
  datatype Dest = Into(field: Field) | Gone | Transferred

  function Weight(lot: Lot, field: Field): nat {
    match field
    case Sale => lot.sale
    case Charity => lot.charity
    case Cancel => lot.cancel
  }

  /** Sale weight that left the lot other than by transfer, and may be reversed into it. */
  function Room(lot: Lot): nat {
    Monus(lot.credited, lot.out + lot.sale)
  }

  ghost predicate Sound(lots: seq<Lot>) {
    forall lot :: lot in lots ==> lot.out + lot.sale <= lot.credited
  }

  function Take(lot: Lot, from: Field, g: nat): Lot
    requires g <= Weight(lot, from)
  {
    match from
    case Sale => lot.(sale := lot.sale - g)
    case Charity => lot.(charity := lot.charity - g)
    case Cancel => lot.(cancel := lot.cancel - g)
  }

  function Give(lot: Lot, to: Dest, g: nat): Lot {
    match to
    case Into(Sale) => lot.(sale := lot.sale + g, credited := lot.credited + g)
    case Into(Charity) => lot.(charity := lot.charity + g)
    case Into(Cancel) => lot.(cancel := lot.cancel + g)
    case Gone => lot
    case Transferred => lot.(out := lot.out + g)
  }

  function Move(lot: Lot, from: Field, to: Dest, g: nat): Lot
    requires g <= Weight(lot, from)
  {
    Give(Take(lot, from, g), to, g)
  }

  /** The moves the system makes: to another bucket, and between stores only from Sale. */
  predicate Possible(from: Field, to: Dest) {
    to != Into(from) && (to == Transferred ==> from == Sale)
  }

  // ---------------------------------------------------------------------------------------------
  // Pools
  // ---------------------------------------------------------------------------------------------

  /** What each lot of the slot holds; lots of other slots hold nothing for it. */
  function Amounts(lots: seq<Lot>, slot: Slot, field: Field): (q: seq<nat>)
    ensures |q| == |lots|
  {
    seq(|lots|, i requires 0 <= i < |lots| => if lots[i].slot == slot then Weight(lots[i], field) else 0)
  }

  function Rooms(lots: seq<Lot>, slot: Slot): (q: seq<nat>)
    ensures |q| == |lots|
  {
    seq(|lots|, i requires 0 <= i < |lots| => if lots[i].slot == slot then Room(lots[i]) else 0)
  }

  function Pool(lots: seq<Lot>, slot: Slot, field: Field): nat {
    Sum(Amounts(lots, slot, field))
  }

  function RoomOf(lots: seq<Lot>, slot: Slot): nat {
    Sum(Rooms(lots, slot))
  }

  /** Weight of all lots in all buckets. */
  function Weights(lots: seq<Lot>): (q: seq<nat>)
    ensures |q| == |lots|
  {
    seq(|lots|, i requires 0 <= i < |lots| => lots[i].sale + lots[i].charity + lots[i].cancel)
  }

  function Outs(lots: seq<Lot>): (q: seq<nat>)
    ensures |q| == |lots|
  {
    seq(|lots|, i requires 0 <= i < |lots| => lots[i].out)
  }

  // ---------------------------------------------------------------------------------------------
  // Taking from the oldest lots
  // ---------------------------------------------------------------------------------------------

  /** What each lot gives when `g` is taken from the slot's bucket, oldest lots first. */
  function Taken(lots: seq<Lot>, slot: Slot, from: Field, g: nat): (t: seq<nat>)
    ensures |t| == |lots|
    ensures forall i :: 0 <= i < |t| ==> t[i] <= Weight(lots[i], from)
    ensures forall i :: 0 <= i < |t| && lots[i].slot != slot ==> t[i] == 0
  {
    FirstCome(Amounts(lots, slot, from), g)
  }

  /** Lot by lot, move `t[i]` grams. */
  function MoveAll(lots: seq<Lot>, from: Field, to: Dest, t: seq<nat>): (r: seq<Lot>)
    requires |t| == |lots| && forall i :: 0 <= i < |t| ==> t[i] <= Weight(lots[i], from)
    ensures |r| == |lots|
    ensures forall i :: 0 <= i < |r| ==> r[i] == Move(lots[i], from, to, t[i])
  {
    seq(|lots|, i requires 0 <= i < |lots| => Move(lots[i], from, to, t[i]))
  }

  function Drain(lots: seq<Lot>, slot: Slot, from: Field, to: Dest, g: nat): (r: seq<Lot>)
    ensures |r| == |lots|
  {
    MoveAll(lots, from, to, Taken(lots, slot, from, g))
  }

  /** Other slots are left alone. */
  lemma DrainOther(lots: seq<Lot>, slot: Slot, from: Field, to: Dest, g: nat, other: Slot)
    requires other != slot
    ensures forall field :: Amounts(Drain(lots, slot, from, to, g), other, field) == Amounts(lots, other, field)
    ensures Rooms(Drain(lots, slot, from, to, g), other) == Rooms(lots, other)
  {
    hide FirstCome;
    var r := Drain(lots, slot, from, to, g);
    assert forall i :: 0 <= i < |lots| && lots[i].slot == other ==> r[i] == lots[i];
  }

  lemma MoveSound(lot: Lot, from: Field, to: Dest, g: nat)
    requires g <= Weight(lot, from) && Possible(from, to) && lot.out + lot.sale <= lot.credited
    ensures var l := Move(lot, from, to, g); l.out + l.sale <= l.credited
  {
  }

  lemma DrainSound(lots: seq<Lot>, slot: Slot, from: Field, to: Dest, g: nat)
    requires Sound(lots) && Possible(from, to)
    ensures Sound(Drain(lots, slot, from, to, g))
  {
    hide FirstCome, Move, Amounts;
    var r, t := Drain(lots, slot, from, to, g), Taken(lots, slot, from, g);
    forall lot | lot in r ensures lot.out + lot.sale <= lot.credited {
      var i :| 0 <= i < |r| && r[i] == lot;
      assert lots[i] in lots;
      MoveSound(lots[i], from, to, t[i]);
    }
  }

  /** The bucket gives what it is asked for, as far as it can. */
  lemma DrainFrom(lots: seq<Lot>, slot: Slot, from: Field, to: Dest, g: nat)
    requires to != Into(from)
    ensures Pool(Drain(lots, slot, from, to, g), slot, from) == Monus(Pool(lots, slot, from), g)
    ensures Sum(Taken(lots, slot, from, g)) == Min(g, Pool(lots, slot, from))
  {
    hide FirstCome, Sum;
    var q, t := Amounts(lots, slot, from), Taken(lots, slot, from, g);
    FirstComeSum(q, g);
    LessSum(q, t);
    assert Amounts(Drain(lots, slot, from, to, g), slot, from) == Less(q, t);
  }

  /** A bucket of the slot that is neither the origin nor the destination keeps its weight. */
  lemma DrainKeeps(lots: seq<Lot>, slot: Slot, from: Field, to: Dest, g: nat, field: Field)
    requires field != from && to != Into(field)
    ensures Amounts(Drain(lots, slot, from, to, g), slot, field) == Amounts(lots, slot, field)
  {
    hide FirstCome;
  }

  /** Weight that left Sale for good, or for another bucket, makes room for a reversal. */
  predicate MakesRoom(from: Field, to: Dest) {
    from == Sale && to != Transferred
  }

  lemma DrainRoom(lots: seq<Lot>, slot: Slot, from: Field, to: Dest, g: nat)
    requires Sound(lots) && Possible(from, to)
    ensures RoomOf(Drain(lots, slot, from, to, g), slot)
         == RoomOf(lots, slot) + if MakesRoom(from, to) then Min(g, Pool(lots, slot, from)) else 0
  {
    hide FirstCome, Sum;
    var r, t := Drain(lots, slot, from, to, g), Taken(lots, slot, from, g);
    FirstComeSum(Amounts(lots, slot, from), g);
    forall i | 0 <= i < |lots|
      ensures Rooms(r, slot)[i] == Rooms(lots, slot)[i] + if MakesRoom(from, to) then t[i] else 0
    {
      assert lots[i] in lots;
    }
    if MakesRoom(from, to) {
      SumPlus(Rooms(lots, slot), t, Rooms(r, slot));
    } else {
      assert Rooms(r, slot) == Rooms(lots, slot);
    }
  }

  lemma DrainWeights(lots: seq<Lot>, slot: Slot, from: Field, to: Dest, g: nat)
    ensures Sum(Weights(Drain(lots, slot, from, to, g)))
         == Sum(Weights(lots)) - if to.Into? then 0 else Min(g, Pool(lots, slot, from))
    ensures Sum(Outs(Drain(lots, slot, from, to, g)))
         == Sum(Outs(lots)) + if to.Transferred? then Min(g, Pool(lots, slot, from)) else 0
  {
    hide FirstCome, Sum;
    var r, t := Drain(lots, slot, from, to, g), Taken(lots, slot, from, g);
    FirstComeSum(Amounts(lots, slot, from), g);
    if to.Into? {
      assert Weights(r) == Weights(lots);
    } else {
      SumPlus(Weights(r), t, Weights(lots));
    }
    if to.Transferred? {
      SumPlus(Outs(lots), t, Outs(r));
    } else {
      assert Outs(r) == Outs(lots);
    }
  }

  /** Draining twice is draining once. */
  lemma DrainTwice(lots: seq<Lot>, slot: Slot, from: Field, to: Dest, g: nat, h: nat)
    requires to != Into(from)
    ensures Drain(Drain(lots, slot, from, to, g), slot, from, to, h) == Drain(lots, slot, from, to, g + h)
  {
    var r := Drain(lots, slot, from, to, g);
    hide Drain;
    forall i | 0 <= i < |lots|
      ensures Drain(r, slot, from, to, h)[i] == Drain(lots, slot, from, to, g + h)[i]
    {
      DrainTwiceAt(lots, slot, from, to, g, h, i);
    }
  }

  lemma DrainLess(lots: seq<Lot>, slot: Slot, from: Field, to: Dest, g: nat)
    requires to != Into(from)
    ensures Amounts(Drain(lots, slot, from, to, g), slot, from) == Less(Amounts(lots, slot, from), Taken(lots, slot, from, g))
  {
    hide FirstCome, Sum;
  }

  lemma DrainTwiceAt(lots: seq<Lot>, slot: Slot, from: Field, to: Dest, g: nat, h: nat, i: nat)
    requires to != Into(from) && i < |lots|
    ensures Drain(Drain(lots, slot, from, to, g), slot, from, to, h)[i] == Drain(lots, slot, from, to, g + h)[i]
  {
    hide FirstCome, Sum, Drain, Amounts, Less;
    var r := Drain(lots, slot, from, to, g);
    DrainLess(lots, slot, from, to, g);
    DrainAt(lots, slot, from, to, g, i);
    DrainAt(r, slot, from, to, h, i);
    DrainAt(lots, slot, from, to, g + h, i);
    FirstComeTwice(Amounts(lots, slot, from), g, h, i);
    MoveTwice(lots[i], from, to, Taken(lots, slot, from, g)[i], Taken(r, slot, from, h)[i]);
  }

  lemma DrainAt(lots: seq<Lot>, slot: Slot, from: Field, to: Dest, g: nat, i: nat)
    requires i < |lots|
    ensures Drain(lots, slot, from, to, g)[i] == Move(lots[i], from, to, Taken(lots, slot, from, g)[i])
  {
    hide FirstCome;
  }

  lemma MoveTwice(lot: Lot, from: Field, to: Dest, g: nat, h: nat)
    requires to != Into(from) && g + h <= Weight(lot, from)
    ensures h <= Weight(Move(lot, from, to, g), from)
    ensures Move(Move(lot, from, to, g), from, to, h) == Move(lot, from, to, g + h)
  {
  }

  lemma DrainNothing(lots: seq<Lot>, slot: Slot, from: Field, to: Dest, g: nat)
    requires to != Into(from) && (g == 0 || Pool(lots, slot, from) == 0)
    ensures Drain(lots, slot, from, to, g) == lots
  {
    hide FirstCome, Sum;
    DrainFrom(lots, slot, from, to, g);
    var t := Taken(lots, slot, from, g);
    SumZero(t);
    forall i | 0 <= i < |lots| ensures Drain(lots, slot, from, to, g)[i] == lots[i] {
      assert t[i] == 0;
    }
  }

  // ---------------------------------------------------------------------------------------------
  // Returning to the newest lots
  // ---------------------------------------------------------------------------------------------

  function Returned(lots: seq<Lot>, slot: Slot, g: nat): (t: seq<nat>)
    ensures |t| == |lots|
    ensures forall i :: 0 <= i < |t| ==> t[i] <= Room(lots[i])
    ensures forall i :: 0 <= i < |t| && lots[i].slot != slot ==> t[i] == 0
  {
    LastCome(Rooms(lots, slot), g)
  }

  /** `g` grams of reversed sales go back to the slot's lots, newest first. */
  function Refund(lots: seq<Lot>, slot: Slot, g: nat): (r: seq<Lot>)
    ensures |r| == |lots|
    ensures forall i :: 0 <= i < |r| ==> r[i].slot == lots[i].slot && r[i].source == lots[i].source
  {
    var t := Returned(lots, slot, g);
    seq(|lots|, i requires 0 <= i < |lots| => lots[i].(sale := lots[i].sale + t[i]))
  }

  lemma RefundOther(lots: seq<Lot>, slot: Slot, g: nat, other: Slot)
    requires other != slot
    ensures forall field :: Amounts(Refund(lots, slot, g), other, field) == Amounts(lots, other, field)
    ensures Rooms(Refund(lots, slot, g), other) == Rooms(lots, other)
  {
    var r := Refund(lots, slot, g);
    assert forall i :: 0 <= i < |lots| && lots[i].slot == other ==> r[i] == lots[i];
  }

  lemma RefundSound(lots: seq<Lot>, slot: Slot, g: nat)
    requires Sound(lots)
    ensures Sound(Refund(lots, slot, g))
  {
    var r := Refund(lots, slot, g);
    forall lot | lot in r ensures lot.out + lot.sale <= lot.credited {
      var i :| 0 <= i < |r| && r[i] == lot;
      assert lots[i] in lots;
    }
  }

  lemma RefundRooms(lots: seq<Lot>, slot: Slot, g: nat)
    ensures Rooms(Refund(lots, slot, g), slot) == Less(Rooms(lots, slot), Returned(lots, slot, g))
  {
  }

  /** A refund the rooms can hold raises Sale and lowers the room by exactly its weight. */
  lemma RefundTotals(lots: seq<Lot>, slot: Slot, g: nat)
    requires g <= RoomOf(lots, slot)
    ensures Pool(Refund(lots, slot, g), slot, Sale) == Pool(lots, slot, Sale) + g
    ensures RoomOf(Refund(lots, slot, g), slot) == RoomOf(lots, slot) - g
    ensures Sum(Weights(Refund(lots, slot, g))) == Sum(Weights(lots)) + g
    ensures Outs(Refund(lots, slot, g)) == Outs(lots)
  {
    var r, t := Refund(lots, slot, g), Returned(lots, slot, g);
    LastComeSum(Rooms(lots, slot), g);
    RefundRooms(lots, slot, g);
    LessSum(Rooms(lots, slot), t);
    SumPlus(Amounts(lots, slot, Sale), t, Amounts(r, slot, Sale));
    SumPlus(Weights(lots), t, Weights(r));
  }

  lemma RefundTwice(lots: seq<Lot>, slot: Slot, g: nat, h: nat)
    ensures Refund(Refund(lots, slot, g), slot, h) == Refund(lots, slot, g + h)
  {
    var r := Refund(lots, slot, g);
    RefundRooms(lots, slot, g);
    forall i | 0 <= i < |lots|
      ensures Refund(r, slot, h)[i] == Refund(lots, slot, g + h)[i]
    {
      LastComeTwice(Rooms(lots, slot), g, h, i);
    }
  }

  lemma RefundNothing(lots: seq<Lot>, slot: Slot)
    ensures Refund(lots, slot, 0) == lots
  {
    var t := Returned(lots, slot, 0);
    LastComeSum(Rooms(lots, slot), 0);
    SumZero(t);
    forall i | 0 <= i < |lots| ensures Refund(lots, slot, 0)[i] == lots[i] {
      assert t[i] == 0;
    }
  }
}
