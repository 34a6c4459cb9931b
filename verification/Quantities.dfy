/** Sums of quantities, and the first-come split of a quantity over an ordered list of balances.

Four loops of the system hand a quantity out in list order, each entry taking as much as it can:
taking weight from the oldest lots, debiting sales from the oldest lots, granting sales to the
counters, and filling the source lines of a merged demand.  `FirstCome` is their common result;
`LastCome` is its mirror image, used when a reversed sale goes back to the newest lots. */
module Quantities {

  function Min(a: int, b: int): int {
    if a <= b then a else b
  }

  function Max(a: int, b: int): int {
    if a <= b then b else a
  }

  /** Subtraction that stops at zero. */
  function Monus(a: nat, b: nat): nat {
    if a <= b then 0 else a - b
  }

  function Sum(q: seq<nat>): nat {
    if |q| == 0 then 0 else Sum(q[..|q| - 1]) + q[|q| - 1]
  }

  lemma SumTake(q: seq<nat>, i: nat)
    requires i < |q|
    ensures Sum(q[..i + 1]) == Sum(q[..i]) + q[i]
  {
    assert q[..i + 1][..i] == q[..i];
  }

  lemma {:induction false} SumAppend(a: seq<nat>, b: seq<nat>)
    ensures Sum(a + b) == Sum(a) + Sum(b)
  {
    if b == [] {
      assert a + b == a;
    } else {
      SumAppend(a, b[..|b| - 1]);
      assert (a + b)[..|a + b| - 1] == a + b[..|b| - 1];
    }
  }

  lemma SumSplit(q: seq<nat>, i: nat)
    requires i <= |q|
    ensures Sum(q) == Sum(q[..i]) + Sum(q[i..])
  {
    SumAppend(q[..i], q[i..]);
    assert q == q[..i] + q[i..];
  }

  lemma SumAround(q: seq<nat>, i: nat)
    requires i < |q|
    ensures Sum(q) == Sum(q[..i]) + q[i] + Sum(q[i + 1..])
  {
    SumTake(q, i);
    SumSplit(q, i + 1);
  }

  lemma SumSet(q: seq<nat>, i: nat, v: nat)
    requires i < |q|
    ensures Sum(q[i := v]) == Sum(q) - q[i] + v
  {
    SumAround(q, i);
    SumAround(q[i := v], i);
    assert q[i := v][..i] == q[..i];
    assert q[i := v][i + 1..] == q[i + 1..];
  }

  lemma {:induction false} SumLeq(a: seq<nat>, b: seq<nat>)
    requires |a| == |b|
    requires forall i :: 0 <= i < |a| ==> a[i] <= b[i]
    ensures Sum(a) <= Sum(b)
    ensures Sum(a) == Sum(b) ==> a == b
  {
    if |a| > 0 {
      var n := |a| - 1;
      SumLeq(a[..n], b[..n]);
      if Sum(a) == Sum(b) {
        assert a == a[..n] + [a[n]] && b == b[..n] + [b[n]];
      }
    }
  }

  lemma {:induction false} SumPlus(a: seq<nat>, b: seq<nat>, c: seq<nat>)
    requires |a| == |b| == |c|
    requires forall i :: 0 <= i < |a| ==> c[i] == a[i] + b[i]
    ensures Sum(c) == Sum(a) + Sum(b)
  {
    if |a| > 0 {
      var n := |a| - 1;
      SumPlus(a[..n], b[..n], c[..n]);
    }
  }

  lemma {:induction false} SumZero(q: seq<nat>)
    ensures Sum(q) == 0 <==> forall i :: 0 <= i < |q| ==> q[i] == 0
  {
    if |q| > 0 {
      SumZero(q[..|q| - 1]);
      assert forall i :: 0 <= i < |q| - 1 ==> q[i] == q[..|q| - 1][i];
    }
  }

  /** One entry is at most the sum of all. */
  lemma SumAtLeast(q: seq<nat>, i: nat)
    requires i < |q|
    ensures q[i] <= Sum(q)
  {
    SumAround(q, i);
  }

  // ---------------------------------------------------------------------------------------------
  // First come, first served
  // ---------------------------------------------------------------------------------------------

  /** What each entry gives when `g` is taken from the front of `q`. */
  function FirstCome(q: seq<nat>, g: nat): (r: seq<nat>)
    ensures |r| == |q|
    ensures forall i :: 0 <= i < |q| ==> r[i] <= q[i]
  {
    seq(|q|, i requires 0 <= i < |q| => Min(q[i], Monus(g, Sum(q[..i]))))
  }

  /** What each entry gives when `g` is taken from the back of `q`. */
  function LastCome(q: seq<nat>, g: nat): (r: seq<nat>)
    ensures |r| == |q|
    ensures forall i :: 0 <= i < |q| ==> r[i] <= q[i]
  {
    seq(|q|, i requires 0 <= i < |q| => Min(q[i], Monus(g, Sum(q[i + 1..]))))
  }

  /** One entry's part, by what the entries before it hold. */
  lemma FirstComeAt(q: seq<nat>, g: nat, i: nat)
    requires i < |q|
    ensures FirstCome(q, g)[i] == Min(q[i], Monus(g, Sum(q[..i])))
    ensures Sum(q[..i + 1]) == Sum(q[..i]) + q[i]
  {
    SumTake(q, i);
  }

  lemma LastComeAt(q: seq<nat>, g: nat, i: nat)
    requires i < |q|
    ensures LastCome(q, g)[i] == Min(q[i], Monus(g, Sum(q[i + 1..])))
  {
    hide Sum;
  }

  /** Nothing is taken from an entry while one before it holds something. */
  lemma FirstComeInOrder(q: seq<nat>, g: nat, i: nat, j: nat)
    requires i < j < |q| && FirstCome(q, g)[j] > 0
    ensures FirstCome(q, g)[i] == q[i]
  {
    hide FirstCome;
    FirstComeAt(q, g, i);
    FirstComeAt(q, g, j);
    SumSplit(q[..j], i + 1);
    assert q[..j][..i + 1] == q[..i + 1];
  }

  lemma LastComeInOrder(q: seq<nat>, g: nat, i: nat, j: nat)
    requires i < j < |q| && LastCome(q, g)[i] > 0
    ensures LastCome(q, g)[j] == q[j]
  {
    hide LastCome;
    LastComeAt(q, g, i);
    LastComeAt(q, g, j);
    SumSplit(q[i + 1..], j - i - 1);
    SumAround(q[j..], 0);
    assert q[i + 1..][j - i - 1..] == q[j..] && q[j..][1..] == q[j + 1..];
  }

  /** The entries after the first do not change what the first give. */
  lemma FirstComeTake(q: seq<nat>, g: nat, i: nat)
    requires i <= |q|
    ensures FirstCome(q, g)[..i] == FirstCome(q[..i], g)
  {
    hide FirstCome, Sum;
    var a, b := FirstCome(q, g)[..i], FirstCome(q[..i], g);
    forall k | 0 <= k < i
      ensures a[k] == b[k]
    {
      FirstComeAt(q, g, k);
      FirstComeAt(q[..i], g, k);
      assert q[..i][..k] == q[..k];
    }
  }

  lemma {:induction false} FirstComeSum(q: seq<nat>, g: nat)
    ensures Sum(FirstCome(q, g)) == Min(g, Sum(q))
  {
    hide FirstCome;
    if |q| > 0 {
      var n, r := |q| - 1, FirstCome(q, g);
      FirstComeAt(q, g, n);
      FirstComeSum(q[..n], g);
      FirstComeTake(q, g, n);
      assert Sum(r) == Sum(r[..n]) + r[n] && Sum(q) == Sum(q[..n]) + q[n];
    }
  }

  /** Dropping the first entries does not change what the others give. */
  lemma LastComeDrop(q: seq<nat>, g: nat, i: nat)
    requires i <= |q|
    ensures LastCome(q, g)[i..] == LastCome(q[i..], g)
  {
    hide LastCome, Sum;
    var a, b := LastCome(q, g)[i..], LastCome(q[i..], g);
    forall k | 0 <= k < |q| - i
      ensures a[k] == b[k]
    {
      LastComeAt(q, g, i + k);
      LastComeAt(q[i..], g, k);
      assert q[i..][k + 1..] == q[i + k + 1..];
    }
  }

  lemma {:induction false} LastComeSum(q: seq<nat>, g: nat)
    ensures Sum(LastCome(q, g)) == Min(g, Sum(q))
  {
    hide LastCome;
    if |q| == 0 { return; }
    var r := LastCome(q, g);
    LastComeAt(q, g, 0);
    LastComeSum(q[1..], g);
    LastComeDrop(q, g, 1);
    SumAround(r, 0);
    SumAround(q, 0);
    assert Sum(r[..0]) == 0 && Sum(q[..0]) == 0;
    hide Sum;
  }

  /** What the first `i` entries give together. */
  lemma FirstComePrefix(q: seq<nat>, g: nat, i: nat)
    requires i <= |q|
    ensures Sum(FirstCome(q, g)[..i]) == Min(g, Sum(q[..i]))
  {
    FirstComeSum(q[..i], g);
    assert FirstCome(q, g)[..i] == FirstCome(q[..i], g) by {
      forall k | 0 <= k < i ensures FirstCome(q, g)[k] == FirstCome(q[..i], g)[k] {
        assert q[..i][..k] == q[..k];
      }
    }
  }

  /** What the entries from `i` on give together. */
  lemma LastComeSuffix(q: seq<nat>, g: nat, i: nat)
    requires i <= |q|
    ensures Sum(LastCome(q, g)[i..]) == Min(g, Sum(q[i..]))
  {
    LastComeSum(q[i..], g);
    LastComeDrop(q, g, i);
  }

  /** What is left of `q` after `r` is taken out. */
  function Less(q: seq<nat>, r: seq<nat>): (d: seq<nat>)
    requires |r| == |q|
    requires forall i :: 0 <= i < |q| ==> r[i] <= q[i]
    ensures |d| == |q|
  {
    seq(|q|, i requires 0 <= i < |q| => q[i] - r[i])
  }

  lemma LessSum(q: seq<nat>, r: seq<nat>)
    requires |r| == |q|
    requires forall i :: 0 <= i < |q| ==> r[i] <= q[i]
    ensures Sum(Less(q, r)) == Sum(q) - Sum(r)
  {
    SumPlus(r, Less(q, r), q);
  }

  lemma LessTake(q: seq<nat>, r: seq<nat>, i: nat)
    requires |r| == |q| && i <= |q|
    requires forall k :: 0 <= k < |q| ==> r[k] <= q[k]
    ensures Sum(Less(q, r)[..i]) == Sum(q[..i]) - Sum(r[..i])
    ensures Sum(Less(q, r)[i..]) == Sum(q[i..]) - Sum(r[i..])
  {
    assert Less(q, r)[..i] == Less(q[..i], r[..i]);
    assert Less(q, r)[i..] == Less(q[i..], r[i..]);
    LessSum(q[..i], r[..i]);
    LessSum(q[i..], r[i..]);
  }

  /** Taking `g` and then `h` from the front takes the same from every entry as taking `g + h`. */
  lemma FirstComeTwice(q: seq<nat>, g: nat, h: nat, i: nat)
    requires i < |q|
    ensures FirstCome(q, g + h)[i] == FirstCome(q, g)[i] + FirstCome(Less(q, FirstCome(q, g)), h)[i]
  {
    FirstComePrefix(q, g, i);
    LessTake(q, FirstCome(q, g), i);
  }

  /** The same from the back. */
  lemma LastComeTwice(q: seq<nat>, g: nat, h: nat, i: nat)
    requires i < |q|
    ensures LastCome(q, g + h)[i] == LastCome(q, g)[i] + LastCome(Less(q, LastCome(q, g)), h)[i]
  {
    LastComeSuffix(q, g, i + 1);
    LessTake(q, LastCome(q, g), i + 1);
  }

  // ---------------------------------------------------------------------------------------------
  // Totals over table rows
  // ---------------------------------------------------------------------------------------------

  /** The sum of `f` over all rows. */
  function Total<T>(rows: seq<T>, f: T -> nat): nat {
    if |rows| == 0 then 0 else Total(rows[..|rows| - 1], f) + f(rows[|rows| - 1])
  }

  lemma TotalPush<T>(rows: seq<T>, x: T, f: T -> nat)
    ensures Total(rows + [x], f) == Total(rows, f) + f(x)
  {
    assert (rows + [x])[..|rows|] == rows;
  }

  lemma TotalTake<T>(rows: seq<T>, i: nat, f: T -> nat)
    requires i < |rows|
    ensures Total(rows[..i + 1], f) == Total(rows[..i], f) + f(rows[i])
  {
    assert rows[..i + 1][..i] == rows[..i];
  }

  lemma {:induction false} TotalAppend<T>(a: seq<T>, b: seq<T>, f: T -> nat)
    ensures Total(a + b, f) == Total(a, f) + Total(b, f)
  {
    if b == [] {
      assert a + b == a;
    } else {
      TotalAppend(a, b[..|b| - 1], f);
      assert (a + b)[..|a + b| - 1] == a + b[..|b| - 1];
    }
  }

  lemma TotalAround<T>(rows: seq<T>, i: nat, f: T -> nat)
    requires i < |rows|
    ensures Total(rows, f) == Total(rows[..i], f) + f(rows[i]) + Total(rows[i + 1..], f)
  {
    TotalTake(rows, i, f);
    TotalAppend(rows[..i + 1], rows[i + 1..], f);
    assert rows == rows[..i + 1] + rows[i + 1..];
  }

  lemma TotalSet<T>(rows: seq<T>, i: nat, x: T, f: T -> nat)
    requires i < |rows|
    ensures Total(rows[i := x], f) == Total(rows, f) - f(rows[i]) + f(x)
  {
    TotalAround(rows, i, f);
    TotalAround(rows[i := x], i, f);
    assert rows[i := x][..i] == rows[..i];
    assert rows[i := x][i + 1..] == rows[i + 1..];
  }

  lemma {:induction false} TotalSame<T, U>(a: seq<T>, f: T -> nat, b: seq<U>, g: U -> nat)
    requires |a| == |b|
    requires forall i :: 0 <= i < |a| ==> f(a[i]) == g(b[i])
    ensures Total(a, f) == Total(b, g)
  {
    if |a| > 0 {
      TotalSame(a[..|a| - 1], f, b[..|b| - 1], g);
    }
  }

  lemma {:induction false} TotalPlus<T, U, W>(a: seq<T>, f: T -> nat, b: seq<U>, g: U -> nat, c: seq<W>, h: W -> nat)
    requires |a| == |b| == |c|
    requires forall i :: 0 <= i < |a| ==> h(c[i]) == f(a[i]) + g(b[i])
    ensures Total(c, h) == Total(a, f) + Total(b, g)
  {
    if |a| > 0 {
      TotalPlus(a[..|a| - 1], f, b[..|b| - 1], g, c[..|c| - 1], h);
    }
  }

  lemma {:induction false} TotalZero<T>(rows: seq<T>, f: T -> nat)
    ensures Total(rows, f) == 0 <==> forall i :: 0 <= i < |rows| ==> f(rows[i]) == 0
  {
    if |rows| > 0 {
      var front := rows[..|rows| - 1];
      TotalZero(front, f);
      assert forall i :: 0 <= i < |front| ==> rows[i] == front[i];
    }
  }

  lemma {:induction false} TotalIsSum<T>(rows: seq<T>, f: T -> nat, q: seq<nat>)
    requires |q| == |rows| && forall i :: 0 <= i < |q| ==> f(rows[i]) == q[i]
    ensures Total(rows, f) == Sum(q)
  {
    if |q| > 0 {
      TotalIsSum(rows[..|q| - 1], f, q[..|q| - 1]);
    }
  }

  /** A total in which one row counts. */
  lemma TotalOnly<T>(rows: seq<T>, i: nat, f: T -> nat)
    requires i < |rows| && forall k :: 0 <= k < |rows| && k != i ==> f(rows[k]) == 0
    ensures Total(rows, f) == f(rows[i])
  {
    TotalAround(rows, i, f);
    TotalZero(rows[..i], f);
    TotalZero(rows[i + 1..], f);
  }

  /** A total does not depend on the order of the rows. */
  lemma {:induction false} TotalPermute<T>(a: seq<T>, b: seq<T>, f: T -> nat)
    requires multiset(a) == multiset(b)
    ensures Total(a, f) == Total(b, f)
  {
    assert |multiset(a)| == |a| && |multiset(b)| == |b|;
    if |a| > 0 {
      var x := a[|a| - 1];
      assert a == a[..|a| - 1] + [x];
      assert x in multiset(b);
      var k :| 0 <= k < |b| && b[k] == x;
      var rest := b[..k] + b[k + 1..];
      assert b == b[..k] + [x] + b[k + 1..];
      assert multiset(b) == multiset(b[..k]) + multiset{x} + multiset(b[k + 1..]);
      assert multiset(a) == multiset(a[..|a| - 1]) + multiset{x};
      assert multiset(rest) == multiset(b) - multiset{x};
      TotalPermute(a[..|a| - 1], rest, f);
      TotalAround(b, k, f);
      TotalAppend(b[..k], b[k + 1..], f);
    }
  }
}
