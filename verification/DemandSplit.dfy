/** Splitting what a merged demand was granted over the request lines it was merged from. */
module DemandSplit {
  import opened Common
  import opened Quantities
  import opened Ordering
  import opened Allocation
  import opened AllocationProperties

  datatype SourceLine = SourceLine(lineId: Id, quantity: nat)

  datatype Status = Waitlisted | Partial | Full

  /** The allocation line persisted for one source line. */
  datatype LineShare = LineShare(line: SourceLine, granted: nat, waitlisted: nat, status: Status, steps: seq<Step>)

  datatype Outcome = Split(shares: seq<LineShare>) | NotReconciled

  function StatusOf(granted: nat, waitlisted: nat): Status {
    if granted == 0 then Waitlisted else if waitlisted > 0 then Partial else Full
  }

  function LineQuantities(lines: seq<SourceLine>): (q: seq<nat>)
    ensures |q| == |lines|
  {
    seq(|lines|, i requires 0 <= i < |lines| => lines[i].quantity)
  }

  /** A slice that stops at the end of the list. */
  function Slice(steps: seq<Step>, from: nat, to: nat): seq<Step>
    requires from <= to
  {
    steps[Min(from, |steps|)..Min(to, |steps|)]
  }

  function Flatten(shares: seq<LineShare>): seq<Step> {
    if |shares| == 0 then [] else Flatten(shares[..|shares| - 1]) + shares[|shares| - 1].steps
  }

  /** The allocation line of `line` when it gets `granted` and the steps `steps`. */
  function ShareOf(line: SourceLine, granted: nat, steps: seq<Step>): LineShare
    requires granted <= line.quantity
  {
    var waitlisted := line.quantity - granted;
    LineShare(line, granted, waitlisted, StatusOf(granted, waitlisted), steps)
  }

  /** Line `i` gets what is left when its turn comes. */
  ghost predicate IsShare(lines: seq<SourceLine>, granted: nat, i: nat, share: LineShare)
    requires i < |lines|
  {
    share == ShareOf(lines[i], FirstCome(LineQuantities(lines), granted)[i], share.steps)
  }

  /** Each line gets what is left, in order, and the next steps. */
  ghost predicate IsSplit(lines: seq<SourceLine>, granted: nat, steps: seq<Step>, shares: seq<LineShare>) {
    && |shares| == |lines|
    && (forall i :: 0 <= i < |lines| ==> IsShare(lines, granted, i, shares[i]) && |shares[i].steps| == shares[i].granted)
    && Flatten(shares) == steps
  }

  /** The split fails exactly when more was granted than the lines ask for, or when the recorded steps
  are not one per granted unit. */
  method SplitOverSources(lines: seq<SourceLine>, granted: nat, steps: seq<Step>) returns (r: Outcome)
    ensures r.Split? <==> granted <= Sum(LineQuantities(lines)) && granted == |steps|
    ensures r.Split? ==> IsSplit(lines, granted, steps, r.shares)
  {
    hide FirstCome, Sum, IsShare;
    var left, offset: nat := granted, 0;
    var shares: seq<LineShare> := [];
    ghost var q := LineQuantities(lines);
    SumZero(q[..0]);
    for i := 0 to |lines|
      invariant left == Monus(granted, Sum(q[..i])) && offset == Min(granted, Sum(q[..i]))
      invariant |shares| == i
      invariant forall k :: 0 <= k < i ==> IsShare(lines, granted, k, shares[k])
      invariant granted <= |steps| ==> forall k :: 0 <= k < i ==> |shares[k].steps| == shares[k].granted
      invariant Flatten(shares) == steps[..Min(offset, |steps|)]
    {
      var source := lines[i];
      var sourceGranted := Min(source.quantity, left);
      var sourceSteps := Slice(steps, offset, offset + sourceGranted);
      var share := ShareOf(source, sourceGranted, sourceSteps);
      FirstComeAt(q, granted, i);
      FlattenStep(shares, share);
      NamedShare(lines, granted, i, share);
      shares := shares + [share];
      left := left - sourceGranted;
      offset := offset + sourceGranted;
    }
    assert q[..|lines|] == q;
    if left != 0 || offset != |steps| { return NotReconciled; }
    r := Split(shares);
  }

  lemma NamedShare(lines: seq<SourceLine>, granted: nat, i: nat, share: LineShare)
    requires i < |lines|
    requires share == ShareOf(lines[i], FirstCome(LineQuantities(lines), granted)[i], share.steps)
    ensures IsShare(lines, granted, i, share)
  {
  }

  lemma FlattenStep(shares: seq<LineShare>, share: LineShare)
    ensures Flatten(shares + [share]) == Flatten(shares) + share.steps
  {
    assert (shares + [share])[..|shares|] == shares;
  }

  /** The first line the grant leaves short, or the last line when it leaves none short. */
  method FirstUnderallocatedSourceLine(lines: seq<SourceLine>, granted: nat) returns (index: Option<nat>)
    ensures index.None? <==> lines == []
    ensures index.Some? ==> index.value < |lines|
    ensures index.Some? && granted < Sum(LineQuantities(lines)) ==>
      && FirstCome(LineQuantities(lines), granted)[index.value] < lines[index.value].quantity
      && forall k :: 0 <= k < index.value ==> FirstCome(LineQuantities(lines), granted)[k] == lines[k].quantity
    ensures index.Some? && granted >= Sum(LineQuantities(lines)) ==> index.value == |lines| - 1
  {
    hide FirstCome, Sum;
    var left: nat := granted;
    ghost var q := LineQuantities(lines);
    SumZero(q[..0]);
    for i := 0 to |lines|
      invariant left == granted - Sum(q[..i])
      invariant forall k :: 0 <= k < i ==> FirstCome(q, granted)[k] == lines[k].quantity
    {
      var taken := Min(lines[i].quantity, left);
      FirstComeAt(q, granted, i);
      SumSplit(q, i + 1);
      left := left - taken;
      if taken < lines[i].quantity { return Some(i); }
    }
    assert q[..|lines|] == q;
    index := if |lines| == 0 then None else Some(|lines| - 1);
  }

  /** A line gets what is left once the lines before it are served, and the steps after theirs; it is marked
  by what it got and what it lacks. */
  lemma LineGetsItsPart(lines: seq<SourceLine>, granted: nat, steps: seq<Step>, shares: seq<LineShare>, i: nat)
    requires IsSplit(lines, granted, steps, shares) && i < |lines|
    ensures var s, earlier := shares[i], Sum(LineQuantities(lines)[..i]);
      && s.line == lines[i] && s.granted == Min(lines[i].quantity, Max(0, granted - earlier)) && s.granted + s.waitlisted == lines[i].quantity
      && (s.status == Waitlisted <==> s.granted == 0)
      && (s.status == Full <==> s.granted == lines[i].quantity > 0)
      && |s.steps| == s.granted
      && (s.granted > 0 ==> earlier + s.granted <= |steps| && s.steps == steps[earlier..earlier + s.granted])
  {
    hide FirstCome, Sum;
    var q := LineQuantities(lines);
    assert IsShare(lines, granted, i, shares[i]);
    FirstComeAt(q, granted, i);
    FlattenAt(shares, i);
    if shares[i].granted > 0 {
      StepsBefore(lines, granted, steps, shares, i, i);
      assert Flatten(shares)[|Flatten(shares[..i])|..][..|shares[i].steps|] == shares[i].steps;
    }
  }

  /** While a line gets something, the lines before it get all they ask for. */
  lemma {:induction false} StepsBefore(lines: seq<SourceLine>, granted: nat, steps: seq<Step>, shares: seq<LineShare>, n: nat, i: nat)
    requires IsSplit(lines, granted, steps, shares) && n <= i < |lines| && shares[i].granted > 0
    ensures |Flatten(shares[..n])| == Sum(LineQuantities(lines)[..n])
  {
    hide FirstCome, Sum;
    var q := LineQuantities(lines);
    if n == 0 {
      SumZero(q[..0]);
    } else {
      StepsBefore(lines, granted, steps, shares, n - 1, i);
      FlattenAt(shares, n - 1);
      assert IsShare(lines, granted, n - 1, shares[n - 1]) && IsShare(lines, granted, i, shares[i]);
      FirstComeInOrder(q, granted, n - 1, i);
      SumTake(q, n - 1);
    }
  }

  /** Granted and waitlisted bags of the lines add up to those of the demand. */
  lemma SplitIsConserved(lines: seq<SourceLine>, granted: nat, steps: seq<Step>, shares: seq<LineShare>)
    requires IsSplit(lines, granted, steps, shares) && granted <= Sum(LineQuantities(lines))
    ensures Total(shares, (s: LineShare) => s.granted) == granted
    ensures Total(shares, (s: LineShare) => s.waitlisted) == Sum(LineQuantities(lines)) - granted
  {
    var q := LineQuantities(lines);
    var f := FirstCome(q, granted);
    FirstComeSum(q, granted);
    LessSum(q, f);
    TotalIsSum(shares, (s: LineShare) => s.granted, f);
    TotalIsSum(shares, (s: LineShare) => s.waitlisted, Less(q, f));
  }

  /** What the allocator granted a merged demand always reconciles with the demand's source lines. */
  lemma GrantsReconcile(input: Input, out: Allocation, i: nat, lines: seq<SourceLine>)
    requires Valid(input) && IsOutcome(input, out) && i < |out.remainders|
    requires Sum(LineQuantities(lines)) == out.remainders[i].demand.requested
    ensures var x := out.remainders[i];
      x.granted <= Sum(LineQuantities(lines)) && x.granted == |StepsFor(out.steps, x.demand.id)|
  {
    StepsMatchGrants(input, out, i);
    AllocationIsConserved(input, out);
  }

  // ---------------------------------------------------------------------------------------------
  // Where a line stands in the run
  // ---------------------------------------------------------------------------------------------

  function InRound(priority: Priority, round: nat): Step -> nat {
    (s: Step) => if s.priority == priority && s.round == round then 1 else 0
  }

  datatype Coordinates = Coordinates(round: nat, sequenceInRound: nat)

  function FirstOf(steps: seq<Step>): Option<Step> {
    if |steps| == 0 then None else Some(steps[0])
  }

  function PositionOf(steps: seq<Step>, step: Step): (k: nat)
    requires step in steps
    ensures k < |steps| && steps[k] == step
  {
    if steps[0] == step then 0 else 1 + PositionOf(steps[1..], step)
  }

  /** The round of a line's first step, and its place among the steps of that round; a line that got
  nothing has its place in the run instead. */
  function PersistenceCoordinates(steps: seq<Step>, first: Option<Step>, fallback: nat): Coordinates
    requires first.Some? ==> first.value in steps
  {
    match first
    case None => Coordinates(1, fallback)
    case Some(step) =>
      Coordinates(step.round, Total(steps[..PositionOf(steps, step) + 1], InRound(step.priority, step.round)))
  }

  /** A line starts in the round of its first step; its place there counts the steps of its priority and
  round up to that one. */
  lemma PlaceInTheRun(steps: seq<Step>, k: nat, fallback: nat)
    requires k < |steps| && forall i :: 0 <= i < k ==> steps[i] != steps[k]
    ensures var c := PersistenceCoordinates(steps, Some(steps[k]), fallback);
      && c.round == steps[k].round
      && c.sequenceInRound == 1 + Total(steps[..k], (s: Step) => if s.priority == steps[k].priority && s.round == steps[k].round then 1 else 0)
    ensures PersistenceCoordinates(steps, None, fallback) == Coordinates(1, fallback)
  {
    hide Total;
    FirstPosition(steps, k);
    TotalTake(steps, k, InRound(steps[k].priority, steps[k].round));
    TotalSame(steps[..k], InRound(steps[k].priority, steps[k].round),
              steps[..k], (s: Step) => if s.priority == steps[k].priority && s.round == steps[k].round then 1 else 0);
  }

  lemma {:induction false} FirstPosition(steps: seq<Step>, k: nat)
    requires k < |steps| && forall i :: 0 <= i < k ==> steps[i] != steps[k]
    ensures PositionOf(steps, steps[k]) == k
  {
    if k > 0 {
      assert steps[1..][k - 1] == steps[k];
      assert forall i :: 0 <= i < k - 1 ==> steps[1..][i] == steps[i + 1];
      FirstPosition(steps[1..], k - 1);
    }
  }

  lemma PlacesRise(steps: seq<Step>, i: nat, j: nat)
    requires i < j < |steps| && steps[i].priority == steps[j].priority && steps[i].round == steps[j].round
    ensures var f := InRound(steps[i].priority, steps[i].round);
      0 < Total(steps[..i + 1], f) < Total(steps[..j + 1], f)
  {
    var f := InRound(steps[i].priority, steps[i].round);
    TotalTake(steps, i, f);
    TotalTake(steps, j, f);
    TotalAppend(steps[..i + 1], steps[i + 1..j], f);
    assert steps[..i + 1] + steps[i + 1..j] == steps[..j];
  }

  /** Two steps of one priority never share round and place; in one round places follow the run. */
  lemma StepsKeepTheirPlaces(steps: seq<Step>, x: Step, y: Step)
    requires x in steps && y in steps && x != y && x.priority == y.priority
    ensures var a, b := PersistenceCoordinates(steps, Some(x), 0), PersistenceCoordinates(steps, Some(y), 0);
      a != b && (a.round == b.round ==> (a.sequenceInRound < b.sequenceInRound <==> PositionOf(steps, x) < PositionOf(steps, y)))
  {
    var i, j := PositionOf(steps, x), PositionOf(steps, y);
    if x.round == y.round {
      if i < j { PlacesRise(steps, i, j); } else { PlacesRise(steps, j, i); }
    }
  }

  /** Lines of different demands of one priority never share round and place. */
  lemma CoordinatesFollowTheRun(input: Input, out: Allocation, i: nat, mine: Step, j: nat, other: Step)
    requires Valid(input) && IsOutcome(input, out) && i < |out.remainders| && j < |out.remainders| && i != j
    requires out.remainders[i].demand.priority == out.remainders[j].demand.priority
    requires mine in StepsFor(out.steps, out.remainders[i].demand.id) && other in StepsFor(out.steps, out.remainders[j].demand.id)
    ensures mine in out.steps && other in out.steps
    ensures var a, b := PersistenceCoordinates(out.steps, Some(mine), 0), PersistenceCoordinates(out.steps, Some(other), 0);
      a != b && (a.round == b.round ==>
                   (a.sequenceInRound < b.sequenceInRound <==> PositionOf(out.steps, mine) < PositionOf(out.steps, other)))
  {
    SortedDemands(input);
    StepsMatchGrants(input, out, i);
    StepsMatchGrants(input, out, j);
    StepIsOf(out.steps, out.remainders[i].demand.id, mine);
    StepIsOf(out.steps, out.remainders[j].demand.id, other);
    hide IsOutcome, Recorded, InServingOrder, StepsFor, PersistenceCoordinates;
    StepsKeepTheirPlaces(out.steps, mine, other);
  }

  lemma StepIsOf(steps: seq<Step>, demand: Id, step: Step)
    requires step in StepsFor(steps, demand)
    ensures step in steps && step.demand == demand
  {
    FilterCounts(steps, (s: Step) => s.demand == demand, step);
  }

  /** The source lines of one demand start in later and later rounds, so they do not share any either. */
  lemma SourceLinesFollowTheRun(input: Input, out: Allocation, i: nat, lines: seq<SourceLine>, shares: seq<LineShare>, j: nat, k: nat)
    requires Valid(input) && IsOutcome(input, out) && i < |out.remainders| && j < k < |shares|
    requires IsSplit(lines, out.remainders[i].granted, StepsFor(out.steps, out.remainders[i].demand.id), shares)
    requires shares[j].granted > 0 && shares[k].granted > 0
    ensures var x, y := FirstOf(shares[j].steps), FirstOf(shares[k].steps);
      && x.Some? && y.Some? && x.value in out.steps && y.value in out.steps
      && PersistenceCoordinates(out.steps, x, 0).round < PersistenceCoordinates(out.steps, y, 0).round
  {
    var steps := StepsFor(out.steps, out.remainders[i].demand.id);
    StepsMatchGrants(input, out, i);
    FlattenAt(shares, j);
    FlattenAt(shares, k);
    FlattenGrows(shares, j + 1, k);
    var a, b := |Flatten(shares[..j])|, |Flatten(shares[..k])|;
    assert shares[j].steps[0] == steps[a] && shares[k].steps[0] == steps[b];
    StepIsOf(out.steps, out.remainders[i].demand.id, steps[a]);
    StepIsOf(out.steps, out.remainders[i].demand.id, steps[b]);
  }

  /** A share's steps stand where those of the shares before it end. */
  lemma FlattenAt(shares: seq<LineShare>, j: nat)
    requires j < |shares|
    ensures Flatten(shares[..j + 1]) == Flatten(shares[..j]) + shares[j].steps
    ensures Flatten(shares[..j + 1]) <= Flatten(shares)
  {
    assert shares[..j + 1][..j] == shares[..j];
    FlattenGrows(shares, j + 1, |shares|);
    assert shares[..|shares|] == shares;
  }

  lemma {:induction false} FlattenGrows(shares: seq<LineShare>, j: nat, k: nat)
    requires j <= k <= |shares|
    ensures Flatten(shares[..j]) <= Flatten(shares[..k])
    decreases k - j
  {
    if j < k {
      FlattenGrows(shares, j, k - 1);
      assert shares[..k][..k - 1] == shares[..k - 1];
    }
  }
}
