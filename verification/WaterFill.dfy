/** Water filling: sharing scarce units one per claimant per round.

Both round robins of the system (the planner's temporary offers and the allocator's grants) hand
out one unit per claimant per round, in a fixed order, until the stock or every claim is used up.
`IsFill` describes the outcome without any rounds: up to some level everyone is served alike, and
only a first stretch of the claimants may be one unit above it. */
module WaterFill {
  import opened Quantities

  /** Everyone served up to `level`, and the first `ahead` claimants up to `level + 1`. */
  function AtLevel(claims: seq<nat>, level: nat, ahead: nat): (q: seq<nat>)
    ensures |q| == |claims|
    ensures forall i :: 0 <= i < |q| ==> q[i] <= claims[i]
  {
    seq(|claims|, i requires 0 <= i < |claims| => Min(claims[i], if i < ahead then level + 1 else level))
  }

  /** `q` shares `stock` among `claims`: it is a water level, and no unit is left while a claim is. */
  ghost predicate IsFill(claims: seq<nat>, stock: nat, q: seq<nat>) {
    && (exists level: nat, ahead: nat :: ahead <= |claims| && q == AtLevel(claims, level, ahead))
    && Sum(q) == Min(stock, Sum(claims))
  }

  /** Water levels are ordered: of any two, one serves everybody at least as well as the other. */
  lemma LevelsAreOrdered(claims: seq<nat>, level: nat, ahead: nat, level': nat, ahead': nat)
    requires ahead <= |claims| && ahead' <= |claims|
    requires level < level' || (level == level' && ahead <= ahead')
    ensures forall i :: 0 <= i < |claims| ==> AtLevel(claims, level, ahead)[i] <= AtLevel(claims, level', ahead')[i]
  {
  }

  /** More stock never lowers anybody's share. */
  lemma MoreStockIsMonotone(claims: seq<nat>, stock: nat, q: seq<nat>, stock': nat, q': seq<nat>)
    requires IsFill(claims, stock, q) && IsFill(claims, stock', q') && stock <= stock'
    ensures forall i :: 0 <= i < |claims| ==> q[i] <= q'[i]
  {
    var level: nat, ahead: nat :| ahead <= |claims| && q == AtLevel(claims, level, ahead);
    var level': nat, ahead': nat :| ahead' <= |claims| && q' == AtLevel(claims, level', ahead');
    if level < level' || (level == level' && ahead <= ahead') {
      LevelsAreOrdered(claims, level, ahead, level', ahead');
    } else {
      LevelsAreOrdered(claims, level', ahead', level, ahead);
      SumLeq(q', q);
    }
  }

  /** The claims and the stock determine the shares. */
  lemma FillIsUnique(claims: seq<nat>, stock: nat, q: seq<nat>, q': seq<nat>)
    requires IsFill(claims, stock, q) && IsFill(claims, stock, q')
    ensures q == q'
  {
    MoreStockIsMonotone(claims, stock, q, stock, q');
    SumLeq(q, q');
  }

  /** Nobody is ahead of anybody with an open claim by more than one unit, and an earlier claimant
  is never behind a later one unless fully served. */
  lemma FillIsFair(claims: seq<nat>, stock: nat, q: seq<nat>, i: nat, j: nat)
    requires IsFill(claims, stock, q) && i < j < |claims|
    ensures Min(claims[i], q[j]) <= q[i]
    ensures q[i] <= q[j] + 1 || q[j] == claims[j]
  {
  }

  /** Where every claim is open, exactly the first `stock` claimants get something. */
  lemma FrontIsServed(claims: seq<nat>, stock: nat, q: seq<nat>)
    requires IsFill(claims, stock, q) && forall i :: 0 <= i < |claims| ==> claims[i] > 0
    ensures forall i :: 0 <= i < |claims| ==> (q[i] > 0 <==> i < stock)
  {
    var level: nat, ahead: nat :| ahead <= |claims| && q == AtLevel(claims, level, ahead);
    if level == 0 {
      SumOnes(q, ahead);
      SumCount(claims);
    } else {
      SumCount(q);
    }
  }

  lemma {:induction false} SumOnes(q: seq<nat>, n: nat)
    requires n <= |q| && forall i :: 0 <= i < |q| ==> q[i] == if i < n then 1 else 0
    ensures Sum(q) == n
  {
    if |q| > 0 {
      SumOnes(q[..|q| - 1], if n == |q| then n - 1 else n);
    }
  }

  lemma {:induction false} SumCount(q: seq<nat>)
    requires forall i :: 0 <= i < |q| ==> q[i] > 0
    ensures |q| <= Sum(q)
  {
    if |q| > 0 {
      SumCount(q[..|q| - 1]);
    }
  }

  /** Either the stock is gone or every claim is met. */
  lemma FillIsExhaustive(claims: seq<nat>, stock: nat, q: seq<nat>)
    requires IsFill(claims, stock, q)
    ensures Sum(q) <= stock
    ensures Sum(q) == stock || q == claims
  {
    if Sum(q) != stock {
      SumLeq(q, claims);
    }
  }

  /** One more unit can always be served while a claim is open. */
  lemma NextUnit(claims: seq<nat>, level: nat, ahead: nat) returns (q: seq<nat>)
    requires ahead <= |claims|
    requires Sum(AtLevel(claims, level, ahead)) < Sum(claims)
    ensures Sum(q) == Sum(AtLevel(claims, level, ahead)) + 1
    ensures exists level': nat, ahead': nat :: ahead' <= |claims| && q == AtLevel(claims, level', ahead')
    decreases Sum(claims) - level, |claims| - ahead
  {
    hide Sum;
    var p := AtLevel(claims, level, ahead);
    if ahead == |claims| {
      if level >= Sum(claims) {
        forall i | 0 <= i < |claims| ensures claims[i] <= p[i] {
          SumAtLeast(claims, i);
        }
        SumLeq(claims, p);
      }
      assert p == AtLevel(claims, level + 1, 0);
      q := NextUnit(claims, level + 1, 0);
    } else if claims[ahead] > level {
      q := p[ahead := p[ahead] + 1];
      SumSet(p, ahead, p[ahead] + 1);
      assert q == AtLevel(claims, level, ahead + 1);
    } else {
      assert p == AtLevel(claims, level, ahead + 1);
      q := NextUnit(claims, level, ahead + 1);
    }
  }

  lemma {:induction false} FillExists(claims: seq<nat>, stock: nat)
    ensures exists q :: IsFill(claims, stock, q)
  {
    if stock == 0 {
      var q := AtLevel(claims, 0, 0);
      SumZero(q);
      assert IsFill(claims, 0, q);
    } else {
      FillExists(claims, stock - 1);
      var p :| IsFill(claims, stock - 1, p);
      if Sum(claims) < stock {
        assert IsFill(claims, stock, p);
      } else {
        var level: nat, ahead: nat :| ahead <= |claims| && p == AtLevel(claims, level, ahead);
        var q := NextUnit(claims, level, ahead);
        assert IsFill(claims, stock, q);
      }
    }
  }

  /** The shares that claims and stock determine. */
  ghost function Fill(claims: seq<nat>, stock: nat): (q: seq<nat>)
    ensures IsFill(claims, stock, q)
  {
    FillExists(claims, stock);
    var q :| IsFill(claims, stock, q);
    q
  }

  /** If somebody with a claim got nothing, the stock is gone. */
  lemma UnservedMeansEmpty(claims: seq<nat>, stock: nat, q: seq<nat>, i: nat)
    requires IsFill(claims, stock, q) && i < |claims|
    requires claims[i] > 0 && q[i] == 0
    ensures Sum(q) == stock
  {
    FillIsExhaustive(claims, stock, q);
  }
}
