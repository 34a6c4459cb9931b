/** The versioned conversion rates of a product: created, replaced, retired, and looked up by date. */
module Conversions {
  import opened Common

  type Date = int

  /** `to` is exclusive; without it the rate stays in force. */
  datatype Conversion = Conversion(product: Id, version: nat, from: Date, to: Option<Date>, retired: bool)

  datatype Error = NotFound | VersionConflict | Conflict | ValidationError

  predicate InForce(c: Conversion, at: Date) {
    c.from <= at && (c.to.None? || at < c.to.value)
  }

  /** An earlier rate of a product is retired, and ended before the next one starts. */
  ghost predicate Precedes(a: Conversion, b: Conversion) {
    && a.version < b.version && a.from < b.from
    && a.retired && a.to.Some? && a.to.value <= b.from
  }

  ghost predicate Timeline(rows: seq<Conversion>) {
    && (forall c :: c in rows ==> c.version > 0 && (c.retired ==> c.to.Some?))
    && (forall i, j :: 0 <= i < j < |rows| && rows[i].product == rows[j].product ==> Precedes(rows[i], rows[j]))
  }

  // ---------------------------------------------------------------------------------------------
  // Looking up
  // ---------------------------------------------------------------------------------------------

  /** The versions of a product in force at a date. */
  function VersionsAt(rows: seq<Conversion>, product: Id, at: Date): seq<nat> {
    if |rows| == 0 then []
    else
      var c := rows[|rows| - 1];
      VersionsAt(rows[..|rows| - 1], product, at) + if c.product == product && InForce(c, at) then [c.version] else []
  }

  /** Never two rates at once. */
  lemma {:induction false} AtMostOneInForce(rows: seq<Conversion>, product: Id, at: Date)
    requires Timeline(rows)
    ensures |VersionsAt(rows, product, at)| <= 1
    ensures VersionsAt(rows, product, at) != [] ==> exists c :: c in rows && c.product == product && InForce(c, at)
  {
    if |rows| > 0 {
      var front, last := rows[..|rows| - 1], rows[|rows| - 1];
      AtMostOneInForce(front, product, at);
      assert rows == front + [last];
      forall c | c in front && c.product == last.product ensures Precedes(c, last) {
        var i :| 0 <= i < |front| && front[i] == c;
        assert Precedes(rows[i], rows[|rows| - 1]);
      }
    }
  }

  /** The row of a product with the highest version. */
  function Newest(rows: seq<Conversion>, product: Id): (r: Option<nat>)
    ensures r.Some? ==> r.value < |rows| && rows[r.value].product == product
    ensures r.Some? ==> forall c :: c in rows && c.product == product ==> c.version <= rows[r.value].version
    ensures r.None? ==> forall c :: c in rows ==> c.product != product
  {
    if |rows| == 0 then None
    else
      var before, c := Newest(rows[..|rows| - 1], product), rows[|rows| - 1];
      assert forall x :: x in rows ==> x in rows[..|rows| - 1] || x == c;
      if c.product == product && (before.None? || rows[before.value].version < c.version) then Some(|rows| - 1) else before
  }

  /** No row of the product has a higher version. */
  ghost predicate IsNewest(rows: seq<Conversion>, product: Id, i: int) {
    0 <= i < |rows| && rows[i].product == product && forall c :: c in rows && c.product == product ==> c.version <= rows[i].version
  }

  lemma NewestIs(rows: seq<Conversion>, product: Id, i: nat)
    requires Timeline(rows) && IsNewest(rows, product, i)
    ensures Newest(rows, product) == Some(i)
  {
    assert rows[i] in rows;
    var n := Newest(rows, product).value;
    assert rows[n] in rows;
    assert n < i ==> Precedes(rows[n], rows[i]);
    assert i < n ==> Precedes(rows[i], rows[n]);
  }

  /** The newest row is the only one that can be in use. */
  lemma OnlyNewestIsActive(rows: seq<Conversion>, i: nat)
    requires Timeline(rows) && i < |rows| && !rows[i].retired
    ensures Newest(rows, rows[i].product) == Some(i)
  {
    var n := Newest(rows, rows[i].product).value;
    assert rows[i] in rows;
    assert n < i ==> Precedes(rows[n], rows[i]);
    assert i < n ==> Precedes(rows[i], rows[n]);
  }

  // ---------------------------------------------------------------------------------------------
  // Changing
  // ---------------------------------------------------------------------------------------------

  lemma {:induction false} VersionsAdded(rows: seq<Conversion>, c: Conversion, product: Id, at: Date)
    ensures VersionsAt(rows + [c], product, at)
         == VersionsAt(rows, product, at) + if c.product == product && InForce(c, at) then [c.version] else []
  {
    assert (rows + [c])[..|rows|] == rows;
  }

  /** Changing a row that answers the same as before. */
  lemma {:induction false} VersionsSame(rows: seq<Conversion>, i: nat, c: Conversion, product: Id, at: Date)
    requires i < |rows| && c.product == rows[i].product && c.version == rows[i].version
    requires c.product == product ==> (InForce(c, at) <==> InForce(rows[i], at))
    ensures VersionsAt(rows[i := c], product, at) == VersionsAt(rows, product, at)
  {
    var n := |rows| - 1;
    if i < n {
      assert rows[i := c][..n] == rows[..n][i := c];
      VersionsSame(rows[..n], i, c, product, at);
    } else {
      assert rows[i := c][..n] == rows[..n];
    }
  }

  /** Before the newest rate starts, only earlier ones can be in force; from then on, only it. */
  lemma {:induction false} NothingLater(rows: seq<Conversion>, product: Id, at: Date)
    requires forall c :: c in rows && c.product == product ==> !InForce(c, at)
    ensures VersionsAt(rows, product, at) == []
  {
    if |rows| > 0 {
      NothingLater(rows[..|rows| - 1], product, at);
    }
  }

  lemma {:induction false} OnlyOne(rows: seq<Conversion>, i: nat, at: Date)
    requires i < |rows| && forall j :: 0 <= j < |rows| && j != i && rows[j].product == rows[i].product ==> !InForce(rows[j], at)
    ensures VersionsAt(rows, rows[i].product, at) == if InForce(rows[i], at) then [rows[i].version] else []
  {
    var n := |rows| - 1;
    if i < n {
      OnlyOne(rows[..n], i, at);
    } else {
      assert forall c :: c in rows[..n] && c.product == rows[i].product ==> !InForce(c, at);
      NothingLater(rows[..n], rows[i].product, at);
    }
  }

  lemma OthersPrecede(rows: seq<Conversion>, i: nat, j: nat)
    requires Timeline(rows) && i < |rows| && Newest(rows, rows[i].product) == Some(i)
    requires j < |rows| && j != i && rows[j].product == rows[i].product
    ensures Precedes(rows[j], rows[i])
  {
    assert rows[j] in rows;
    assert i < j ==> Precedes(rows[i], rows[j]);
  }

  /** What the newest row decides: every date from its start on. */
  lemma NewestDecides(rows: seq<Conversion>, i: nat, at: Date)
    requires Timeline(rows) && i < |rows| && Newest(rows, rows[i].product) == Some(i) && rows[i].from <= at
    ensures VersionsAt(rows, rows[i].product, at) == if InForce(rows[i], at) then [rows[i].version] else []
  {
    forall j | 0 <= j < |rows| && j != i && rows[j].product == rows[i].product ensures !InForce(rows[j], at) {
      OthersPrecede(rows, i, j);
    }
    OnlyOne(rows, i, at);
  }

  function RetirementDate(from: Date, today: Date): (d: Date)
    ensures d >= from && d >= today && (d == from || d == today)
  {
    if today > from then today else from
  }

  /** Rates in force on a date after a row became the newest: from its start on it alone decides. */
  ghost predicate TakesOver(before: seq<Conversion>, after: seq<Conversion>, c: Conversion) {
    && (forall at ::
          VersionsAt(after, c.product, at) == if c.from <= at then (if InForce(c, at) then [c.version] else []) else VersionsAt(before, c.product, at))
    && (forall other, at :: other != c.product ==> VersionsAt(after, other, at) == VersionsAt(before, other, at))
  }

  lemma AppendedIsSound(rows: seq<Conversion>, c: Conversion)
    requires Timeline(rows) && c.version > 0 && !c.retired
    requires forall a :: a in rows && a.product == c.product ==> Precedes(a, c)
    ensures Timeline(rows + [c]) && Newest(rows + [c], c.product) == Some(|rows|)
  {
    hide Precedes, VersionsAt;
    var after := rows + [c];
    assert forall i :: 0 <= i < |rows| ==> after[i] == rows[i] && after[i] in rows;
    assert after[|rows|] == c;
    OnlyNewestIsActive(after, |rows|);
  }

  lemma Appended(rows: seq<Conversion>, c: Conversion)
    requires Timeline(rows) && c.version > 0 && !c.retired
    requires forall a :: a in rows && a.product == c.product ==> Precedes(a, c)
    ensures Timeline(rows + [c]) && Newest(rows + [c], c.product) == Some(|rows|)
    ensures TakesOver(rows, rows + [c], c)
  {
    AppendedIsSound(rows, c);
    hide *;
    NewestTakesOver(rows, c);
  }

  lemma NewestTakesOver(rows: seq<Conversion>, c: Conversion)
    requires Timeline(rows + [c]) && Newest(rows + [c], c.product) == Some(|rows|)
    ensures TakesOver(rows, rows + [c], c)
  {
    hide Timeline, VersionsAt, Newest, InForce;
    forall at ensures VersionsAt(rows + [c], c.product, at)
                   == if c.from <= at then (if InForce(c, at) then [c.version] else []) else VersionsAt(rows, c.product, at) {
      TakesOverAt(rows, c, at);
    }
    forall other, at | other != c.product ensures VersionsAt(rows + [c], other, at) == VersionsAt(rows, other, at) {
      VersionsAdded(rows, c, other, at);
    }
  }

  lemma TakesOverAt(rows: seq<Conversion>, c: Conversion, at: Date)
    requires Timeline(rows + [c]) && Newest(rows + [c], c.product) == Some(|rows|)
    ensures VersionsAt(rows + [c], c.product, at)
         == if c.from <= at then (if InForce(c, at) then [c.version] else []) else VersionsAt(rows, c.product, at)
  {
    hide Timeline, VersionsAt, Newest;
    assert (rows + [c])[|rows|] == c;
    if c.from <= at {
      NewestDecides(rows + [c], |rows|, at);
    } else {
      VersionsAdded(rows, c, c.product, at);
    }
  }

  /** Retiring the newest row as of `end`. */
  lemma Retired(rows: seq<Conversion>, i: nat, end: Date)
    requires Timeline(rows) && i < |rows| && !rows[i].retired
    ensures var cur := rows[i]; var after := rows[i := cur.(to := Some(end), retired := true)];
      && Timeline(after) && Newest(after, cur.product) == Some(i)
      && (forall at :: VersionsAt(after, cur.product, at)
                       == if cur.from <= at then (if at < end then [cur.version] else []) else VersionsAt(rows, cur.product, at))
      && (forall other, at :: other != cur.product ==> VersionsAt(after, other, at) == VersionsAt(rows, other, at))
  {
    var cur := rows[i];
    var c := cur.(to := Some(end), retired := true);
    var after := rows[i := c];
    OnlyNewestIsActive(rows, i);
    assert cur in rows;
    assert forall x :: x in after ==> x in rows || x == c;
    forall j, k | 0 <= j < k < |after| && after[j].product == after[k].product ensures Precedes(after[j], after[k]) {
      assert Precedes(rows[j], rows[k]);
    }
    StaysNewest(rows, i, c);
    forall at ensures VersionsAt(after, cur.product, at)
                   == if cur.from <= at then (if at < end then [cur.version] else []) else VersionsAt(rows, cur.product, at) {
      if cur.from <= at {
        NewestDecides(after, i, at);
      } else {
        VersionsSame(rows, i, c, cur.product, at);
      }
    }
    forall other, at | other != cur.product ensures VersionsAt(after, other, at) == VersionsAt(rows, other, at) {
      VersionsSame(rows, i, c, other, at);
    }
  }

  lemma {:induction false} StaysNewest(rows: seq<Conversion>, i: nat, c: Conversion)
    requires i < |rows| && c.product == rows[i].product && c.version == rows[i].version
    ensures Newest(rows[i := c], c.product) == Newest(rows, c.product)
  {
    var n := |rows| - 1;
    if i < n {
      assert rows[i := c][..n] == rows[..n][i := c];
      StaysNewest(rows[..n], i, c);
    } else {
      assert rows[i := c][..n] == rows[..n];
    }
  }

  /** Every row of the product ended before the newest started, and the newest before `from`. */
  lemma AllPrecede(rows: seq<Conversion>, i: nat, c: Conversion)
    requires Timeline(rows) && i < |rows| && Newest(rows, c.product) == Some(i) && rows[i].product == c.product
    requires Precedes(rows[i], c)
    ensures forall a :: a in rows && a.product == c.product ==> Precedes(a, c)
  {
    forall a | a in rows && a.product == c.product ensures Precedes(a, c) {
      var j :| 0 <= j < |rows| && rows[j] == a;
      if j != i { OthersPrecede(rows, i, j); }
    }
  }

  /** The newest rate ended where its replacement starts, and the replacement. */
  function Replaced(rows: seq<Conversion>, i: nat, from: Date, to: Option<Date>): seq<Conversion>
    requires i < |rows|
  {
    rows[i := rows[i].(to := Some(from), retired := true)] + [Conversion(rows[i].product, rows[i].version + 1, from, to, false)]
  }

  /** The rates in force after a replacement. */
  lemma ReplacedRates(rows: seq<Conversion>, i: nat, from: Date, to: Option<Date>)
    requires Timeline(rows) && i < |rows| && !rows[i].retired && rows[i].from < from
    ensures Timeline(Replaced(rows, i, from, to))
    ensures forall at ::
      VersionsAt(Replaced(rows, i, from, to), rows[i].product, at)
      == if from <= at then (if to.None? || at < to.value then [rows[i].version + 1] else [])
         else if rows[i].from <= at then [rows[i].version]
         else VersionsAt(rows, rows[i].product, at)
    ensures forall other, at :: other != rows[i].product ==>
      VersionsAt(Replaced(rows, i, from, to), other, at) == VersionsAt(rows, other, at)
  {
    hide VersionsAt, Newest;
    Retired(rows, i, from);
    var c := Conversion(rows[i].product, rows[i].version + 1, from, to, false);
    AllPrecede(rows[i := rows[i].(to := Some(from), retired := true)], i, c);
    Appended(rows[i := rows[i].(to := Some(from), retired := true)], c);
  }

  /** Replacing the rate in use leaves every earlier date its rate exactly when the rate does not end
  before its replacement starts; one that does comes back into force for the days between. */
  lemma ReplacingKeepsThePast(rows: seq<Conversion>, i: nat, from: Date, to: Option<Date>)
    requires Timeline(rows) && i < |rows| && !rows[i].retired && rows[i].from < from
    ensures (forall at :: at < from ==>
               VersionsAt(Replaced(rows, i, from, to), rows[i].product, at) == VersionsAt(rows, rows[i].product, at))
       <==> (rows[i].to.None? || from <= rows[i].to.value)
  {
    hide VersionsAt, Newest, Timeline, Replaced;
    ReplacedRates(rows, i, from, to);
    OnlyNewestIsActive(rows, i);
    var c, after := rows[i], Replaced(rows, i, from, to);
    forall at | c.from <= at < from
      ensures VersionsAt(after, c.product, at) == [c.version]
      ensures VersionsAt(rows, c.product, at) == if InForce(c, at) then [c.version] else []
    {
      NewestDecides(rows, i, at);
    }
    if c.to.Some? && c.to.value < from {
      var day := if c.from <= c.to.value then c.to.value else c.from;
      assert VersionsAt(after, c.product, day) != VersionsAt(rows, c.product, day);
    }
  }

  /** A rate from day 10 to day 20, replaced on a later day as of day 30: on day 25, when none was in
  force, it is in force again. */
  lemma EndedRateComesBack()
    ensures var rows := [Conversion(1, 1, 10, Some(20), false)];
      && Timeline(rows) && VersionsAt(rows, 1, 25) == []
      && VersionsAt(Replaced(rows, 0, 30, None), 1, 25) == [1]
  {
    var rows := [Conversion(1, 1, 10, Some(20), false)];
    assert Newest([], 1) == None && rows[..0] == [];
    NewestDecides(rows, 0, 25);
    ReplacedRates(rows, 0, 30, None);
  }

  class ConversionBook {
    var products: set<Id>
    var rows: seq<Conversion>

    constructor (known: set<Id>)
      ensures Timeline(rows) && rows == [] && products == known
    {
      products, rows := known, [];
    }

    /** A first rate, or one after the newest was retired: it starts after that one started and not
    before it ended.  From its start on it alone decides. */
    method Create(product: Id, expectedVersion: Option<nat>, from: Date, to: Option<Date>) returns (error: Option<Error>)
      requires Timeline(rows)
      modifies this`rows
      ensures Timeline(rows)
      ensures error.Some? ==> rows == old(rows)
      ensures error == Some(NotFound) <==> product !in products
      ensures product in products && (forall c :: c in old(rows) ==> c.product != product) ==>
        error == (if expectedVersion.Some? && expectedVersion.value != 0 then Some(VersionConflict) else None)
        && (error.None? ==> old(|rows|) < |rows| && rows[old(|rows|)].version == 1)
      ensures forall i :: product in products && IsNewest(old(rows), product, i) ==>
        error == (if expectedVersion != Some(old(rows)[i].version) then Some(VersionConflict)
                  else if !old(rows)[i].retired then Some(Conflict)
                  else if from <= old(rows)[i].from || (old(rows)[i].to.Some? && from < old(rows)[i].to.value) then Some(ValidationError)
                  else None)
        && (error.None? ==> old(|rows|) < |rows| && rows[old(|rows|)].version == old(rows)[i].version + 1)
      ensures error.None? ==> |rows| == old(|rows|) + 1 && rows[..old(|rows|)] == old(rows)
      ensures error.None? ==>
        rows[old(|rows|)] == Conversion(product, NextVersion(old(rows), product), from, to, false) && TakesOver(old(rows), rows, rows[old(|rows|)])
    {
      if product !in products { return Some(NotFound); }
      var latest := Newest(rows, product);
      forall i | IsNewest(rows, product, i) ensures latest == Some(i) { NewestIs(rows, product, i); }
      match latest {
        case None =>
          if expectedVersion.Some? && expectedVersion.value != 0 { return Some(VersionConflict); }
        case Some(i) =>
          if expectedVersion != Some(rows[i].version) { return Some(VersionConflict); }
          if !rows[i].retired { return Some(Conflict); }
          if from <= rows[i].from || (rows[i].to.Some? && from < rows[i].to.value) { return Some(ValidationError); }
      }
      var c := Conversion(product, NextVersion(rows, product), from, to, false);
      if latest.Some? {
        assert rows[latest.value] in rows;
        AllPrecede(rows, latest.value, c);
      }
      Appended(rows, c);
      rows := rows + [c];
      error := None;
    }

    /** The newest rate ends where its replacement starts. */
    method Replace(product: Id, i: nat, expectedVersion: nat, from: Date, to: Option<Date>) returns (error: Option<Error>)
      requires Timeline(rows)
      modifies this`rows
      ensures Timeline(rows)
      ensures error.Some? ==> rows == old(rows)
      ensures error == if i >= old(|rows|) || old(rows)[i].product != product then Some(NotFound)
                       else if old(rows)[i].version != expectedVersion then Some(VersionConflict)
                       else if old(rows)[i].retired then Some(Conflict)
                       else if from <= old(rows)[i].from then Some(ValidationError) else None
      ensures error.None? ==> i < old(|rows|)
      ensures error.None? ==> rows == Replaced(old(rows), i, from, to) && product == old(rows)[i].product
      ensures error.None? ==>
        rows == old(rows)[i := old(rows)[i].(to := Some(from), retired := true)] + [Conversion(product, old(rows)[i].version + 1, from, to, false)]
      ensures error.None? ==> forall at ::
        VersionsAt(rows, product, at) == if from <= at then (if to.None? || at < to.value then [old(rows)[i].version + 1] else [])
        else if old(rows)[i].from <= at then [old(rows)[i].version]
        else VersionsAt(old(rows), product, at)
      ensures error.None? ==> forall other, at :: other != product ==> VersionsAt(rows, other, at) == VersionsAt(old(rows), other, at)
    {
      if i >= |rows| || rows[i].product != product { return Some(NotFound); }
      var current := rows[i];
      if current.version != expectedVersion { return Some(VersionConflict); }
      if current.retired { return Some(Conflict); }
      if from <= current.from { return Some(ValidationError); }
      ReplacedRates(rows, i, from, to);
      rows := rows[i := current.(to := Some(from), retired := true)];
      rows := rows + [Conversion(product, current.version + 1, from, to, false)];
      error := None;
    }

    /** A rate is retired as of today, never before it started; a retired one stays as it is. */
    method Retire(product: Id, i: nat, expectedVersion: nat, today: Date) returns (error: Option<Error>)
      requires Timeline(rows)
      modifies this`rows
      ensures Timeline(rows)
      ensures error.Some? ==> rows == old(rows)
      ensures error == if i >= old(|rows|) || old(rows)[i].product != product then Some(NotFound)
                       else if old(rows)[i].version != expectedVersion then Some(VersionConflict) else None
      ensures error.None? ==> i < |rows| == old(|rows|) && (old(rows)[i].retired ==> rows == old(rows))
      ensures error.None? && !old(rows)[i].retired ==>
        var end := RetirementDate(old(rows)[i].from, today);
        && rows == old(rows)[i := old(rows)[i].(to := Some(end), retired := true)]
        && (forall at :: VersionsAt(rows, product, at) ==
              if old(rows)[i].from <= at then (if at < end then [old(rows)[i].version] else []) else VersionsAt(old(rows), product, at))
        && (forall other, at :: other != product ==> VersionsAt(rows, other, at) == VersionsAt(old(rows), other, at))
    {
      if i >= |rows| || rows[i].product != product { return Some(NotFound); }
      var current := rows[i];
      if current.version != expectedVersion { return Some(VersionConflict); }
      if current.retired { return None; }
      var end := RetirementDate(current.from, today);
      Retired(rows, i, end);
      rows := rows[i := current.(to := Some(end), retired := true)];
      error := None;
    }

    /** The rate of a product in force at a date; there is never a second one. */
    method EffectiveAt(product: Id, at: Date) returns (found: Option<nat>)
      requires Timeline(rows)
      ensures VersionsAt(rows, product, at) == match found case None => [] case Some(v) => [v]
    {
      found := None;
      for i := 0 to |rows|
        invariant VersionsAt(rows[..i], product, at) == match found case None => [] case Some(v) => [v]
      {
        var c := rows[i];
        assert rows[..i + 1][..i] == rows[..i];
        AtMostOneInForce(rows[..i + 1], product, at);
        if c.product == product && InForce(c, at) { found := Some(c.version); }
      }
      assert rows[..|rows|] == rows;
    }
  }

  function NextVersion(rows: seq<Conversion>, product: Id): nat {
    match Newest(rows, product)
    case None => 1
    case Some(i) => rows[i].version + 1
  }
}
