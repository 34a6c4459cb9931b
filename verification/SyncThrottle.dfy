/** Spacing out an action per key, in bounded memory.

The table of last grants is an insertion-ordered map; here it is the sequence of its entries.  The
log of all grants is a ghost: it is what the promise is about. */
module SyncThrottle {
  import opened Common

  type Key = int

  datatype Grant = Grant(key: Key, at: Instant)

  const MAX_TRACKED_CLIENTS: nat := 10_000

  predicate DistinctKeys(entries: seq<Grant>) {
    forall i, j :: 0 <= i < j < |entries| ==> entries[i].key != entries[j].key
  }

  /** The clock did not go back between grants. */
  ghost predicate Forward(log: seq<Grant>) {
    forall i, j :: 0 <= i < j < |log| ==> log[i].at <= log[j].at
  }

  /** The other keys granted after grant `i` and before grant `j`. */
  ghost function Between(log: seq<Grant>, i: nat, j: nat): set<Key>
    requires i < j <= |log|
  {
    set n | i < n < j && log[n].key != log[i].key :: log[n].key
  }

  ghost predicate IsLast(log: seq<Grant>, g: nat)
    requires g < |log|
  {
    forall n :: g < n < |log| ==> log[n].key != log[g].key
  }

  /** Whether grant `g` no longer has to be remembered: enough other keys came, or enough time passed. */
  ghost predicate Faded(log: seq<Grant>, g: nat, interval: nat)
    requires g < |log|
  {
    |Between(log, g, |log|)| >= MAX_TRACKED_CLIENTS || exists n :: g < n < |log| && log[g].at + interval <= log[n].at
  }

  /** Two grants of a key within the interval have `MAX_TRACKED_CLIENTS` other keys between them. */
  ghost predicate Spaced(log: seq<Grant>, interval: nat) {
    forall i, j :: 0 <= i < j < |log| && log[i].key == log[j].key && log[j].at < log[i].at + interval ==>
      |Between(log, i, j)| >= MAX_TRACKED_CLIENTS
  }

  /** The entries are last grants, in the order they were granted; a last grant that is no entry faded. */
  ghost predicate Remembers(entries: seq<Grant>, log: seq<Grant>, pos: seq<nat>, interval: nat) {
    && |pos| == |entries|
    && (forall i :: 0 <= i < |pos| ==> pos[i] < |log| && log[pos[i]] == entries[i] && IsLast(log, pos[i]))
    && (forall i, j :: 0 <= i < j < |pos| ==> pos[i] < pos[j])
    && (Forward(log) ==> forall g: nat :: g < |log| && IsLast(log, g) && g !in pos ==> Faded(log, g, interval))
  }

  lemma {:induction false} KeyCount(entries: seq<Grant>)
    requires DistinctKeys(entries)
    ensures |set e | e in entries :: e.key| == |entries|
  {
    var keys := set e | e in entries :: e.key;
    if entries == [] {
      assert keys == {};
    } else {
      var front, last := entries[..|entries| - 1], entries[|entries| - 1];
      KeyCount(front);
      var before := set e | e in front :: e.key;
      assert last.key !in before;
      assert keys == before + {last.key};
    }
  }

  lemma SubsetSize(a: set<Key>, b: set<Key>)
    requires a <= b
    ensures |a| <= |b|
  {
    var rest := b - a;
    assert b == a + rest;
  }

  lemma FadedStays(log: seq<Grant>, g: nat, interval: nat, next: Grant)
    requires g < |log| && Faded(log, g, interval)
    ensures Faded(log + [next], g, interval)
  {
    var after := log + [next];
    if |Between(log, g, |log|)| >= MAX_TRACKED_CLIENTS {
      forall k | k in Between(log, g, |log|) ensures k in Between(after, g, |after|) {
        var n :| g < n < |log| && log[n].key != log[g].key && log[n].key == k;
        assert after[n] == log[n];
      }
      SubsetSize(Between(log, g, |log|), Between(after, g, |after|));
    } else {
      var n :| g < n < |log| && log[g].at + interval <= log[n].at;
      assert after[n] == log[n];
    }
  }

  /** The oldest entry of a full table may be dropped: by now its grant faded. */
  lemma OldestFades(entries: seq<Grant>, log: seq<Grant>, pos: seq<nat>, interval: nat, next: Grant)
    requires Remembers(entries, log, pos, interval) && DistinctKeys(entries) && |entries| >= MAX_TRACKED_CLIENTS
    requires next.key != entries[0].key && Forward(log + [next])
    requires forall e :: e in entries && e.key == next.key ==> next.at < e.at || e.at + interval <= next.at
    ensures Faded(log + [next], pos[0], interval)
  {
    var after, g := log + [next], pos[0];
    if e :| e in entries && e.key == next.key {
      var m :| 0 <= m < |entries| && entries[m] == e;
      assert after[pos[m]] == e && after[g] == entries[0] && after[|log|] == next;
      assert g < pos[m];
      assert after[g].at + interval <= after[|log|].at;
    } else {
      var others := entries[1..] + [next];
      KeyCount(others);
      forall k | k in set e | e in others :: e.key ensures k in Between(after, g, |after|) {
        var m :| 0 <= m < |others| && others[m].key == k;
        if m < |entries| - 1 {
          assert others[m] == entries[m + 1] && after[pos[m + 1]] == entries[m + 1] && g < pos[m + 1];
        } else {
          assert after[|log|] == next;
        }
      }
      SubsetSize(set e | e in others :: e.key, Between(after, g, |after|));
    }
  }

  /** A grant to a key that is not remembered, or whose entry is old enough, keeps grants spaced. */
  lemma StaysSpaced(entries: seq<Grant>, log: seq<Grant>, pos: seq<nat>, interval: nat, next: Grant)
    requires Remembers(entries, log, pos, interval) && Spaced(log, interval) && Forward(log + [next])
    requires forall e :: e in entries && e.key == next.key ==> next.at < e.at || e.at + interval <= next.at
    ensures Spaced(log + [next], interval)
  {
    var after := log + [next];
    assert Forward(log) by {
      forall i, j | 0 <= i < j < |log| ensures log[i].at <= log[j].at {
        assert after[i] == log[i] && after[j] == log[j];
      }
    }
    forall i, j | 0 <= i < j < |after| && after[i].key == after[j].key && after[j].at < after[i].at + interval
      ensures |Between(after, i, j)| >= MAX_TRACKED_CLIENTS
    {
      assert forall n :: 0 <= n < |log| ==> after[n] == log[n];
      if j < |log| {
        assert Between(after, i, j) == Between(log, i, j);
      } else {
        SpacedFromNext(entries, log, pos, interval, next, i);
      }
    }
  }

  lemma {:induction false} SpacedFromNext(entries: seq<Grant>, log: seq<Grant>, pos: seq<nat>, interval: nat, next: Grant, i: nat)
    requires Remembers(entries, log, pos, interval) && Forward(log) && Forward(log + [next])
    requires forall e :: e in entries && e.key == next.key ==> next.at < e.at || e.at + interval <= next.at
    requires i < |log| && log[i].key == next.key && next.at < log[i].at + interval
    ensures |Between(log + [next], i, |log|)| >= MAX_TRACKED_CLIENTS
    decreases |log| - i
  {
    var after := log + [next];
    assert after[i] == log[i] && after[|log|] == next;
    if IsLast(log, i) {
      if i !in pos {
        assert Faded(log, i, interval);
        assert forall n :: 0 <= n < |log| ==> after[n] == log[n] && after[n].at <= after[|log|].at;
        assert Between(after, i, |log|) == Between(log, i, |log|);
      }
    } else {
      var n :| i < n < |log| && log[n].key == log[i].key;
      assert after[n] == log[n] && after[i].at <= after[n].at;
      SpacedFromNext(entries, log, pos, interval, next, n);
      assert Between(after, n, |log|) <= Between(after, i, |log|);
      SubsetSize(Between(after, n, |log|), Between(after, i, |log|));
    }
  }

  class ManualSyncThrottle {
    const interval: nat
    var lastStarted: seq<Grant>
    ghost var log: seq<Grant>
    ghost var pos: seq<nat>

    ghost predicate Valid()
      reads this
    {
      && interval > 0 && DistinctKeys(lastStarted) && |lastStarted| <= MAX_TRACKED_CLIENTS
      && Remembers(lastStarted, log, pos, interval)
      && (Forward(log) ==> Spaced(log, interval))
    }

    constructor (intervalMs: nat)
      requires intervalMs > 0
      ensures Valid() && interval == intervalMs && lastStarted == [] && log == []
    {
      interval, lastStarted, log, pos := intervalMs, [], [], [];
    }

    /** Where a key's entry is. */
    method Find(key: Key) returns (i: nat)
      ensures i == IndexOf(lastStarted, key)
    {
      i := 0;
      while i < |lastStarted|
        invariant i <= |lastStarted| && forall k :: 0 <= k < i ==> lastStarted[k].key != key
        invariant IndexOf(lastStarted, key) == i + IndexOf(lastStarted[i..], key)
      {
        if lastStarted[i].key == key { return; }
        i := i + 1;
      }
    }

    /** 0 and a new interval when the key is free, otherwise the time left.  A full table forgets its
    oldest key first, even when the key it makes room for is in the table already. */
    method Acquire(key: Key, instant: Instant) returns (wait: int)
      requires Valid()
      modifies this`lastStarted, this`log, this`pos
      ensures Valid() && |lastStarted| <= 10_000
      ensures wait <= 0 ==> forall j :: 0 <= j < old(|lastStarted|) && old(lastStarted)[j].key != key && (j > 0 || old(|lastStarted|) < 10_000) ==>
        old(lastStarted)[j] in lastStarted
      ensures wait > 0 <==> exists e :: e in old(lastStarted) && e.key == key && e.at <= instant < e.at + interval
      ensures wait > 0 ==> lastStarted == old(lastStarted) && log == old(log)
      ensures wait > 0 ==> exists e :: e in lastStarted && e.key == key && wait == interval - (instant - e.at)
      ensures wait <= 0 ==> wait == 0 && log == old(log) + [Grant(key, instant)]
      ensures wait <= 0 ==> old(Evicted(lastStarted) <= |lastStarted|)
      ensures wait <= 0 ==>
        lastStarted == Without(old(lastStarted), old(Evicted(lastStarted)), old(IndexOf(lastStarted, key))) + [Grant(key, instant)]
    {
      hide Remembers, Spaced, Forward;
      var i := Find(key);
      if i < |lastStarted| {
        var previous := lastStarted[i].at;
        if previous <= instant < previous + interval {
          return interval - (instant - previous);
        }
      }
      assert forall e :: e in lastStarted && e.key == key ==> e == lastStarted[i];
      ghost var next := Grant(key, instant);
      GrantRemembered(lastStarted, log, pos, interval, next, i);
      if Forward(log + [next]) {
        ForwardBefore(log, next);
        StaysSpaced(lastStarted, log, pos, interval, next);
      }
      var from := if |lastStarted| >= MAX_TRACKED_CLIENTS then 1 else 0;
      pos := Without<nat>(pos, from, i) + [|log|];
      lastStarted := Without(lastStarted, from, i) + [Grant(key, instant)];
      log := log + [next];
      wait := 0;
    }
  }

  /** The entries from `from` on, except entry `i`. */
  function Without<T>(q: seq<T>, from: nat, i: nat): seq<T>
    requires from <= |q|
  {
    if from <= i < |q| then q[from..i] + q[i + 1..] else q[from..]
  }

  /** The place of a key's entry; the length of the table when there is none. */
  function IndexOf(entries: seq<Grant>, key: Key): (i: nat)
    ensures i <= |entries|
    ensures i < |entries| ==> entries[i].key == key
    ensures i == |entries| ==> forall e :: e in entries ==> e.key != key
  {
    if entries == [] || entries[0].key == key then 0 else 1 + IndexOf(entries[1..], key)
  }

  /** How many of the oldest entries a grant drops. */
  function Evicted(entries: seq<Grant>): nat {
    if |entries| >= MAX_TRACKED_CLIENTS then 1 else 0
  }

  lemma ForwardBefore(log: seq<Grant>, next: Grant)
    requires Forward(log + [next])
    ensures Forward(log)
  {
    var after := log + [next];
    assert forall i :: 0 <= i < |log| ==> after[i] == log[i];
  }

  /** Where the entry at place `j` of the shortened table was. */
  function Origin(from: nat, i: nat, j: nat): nat {
    if from <= i <= from + j then from + j + 1 else from + j
  }

  lemma WithoutAt<T>(q: seq<T>, from: nat, i: nat)
    requires from <= |q|
    ensures |Without(q, from, i)| == |q| - from - if from <= i < |q| then 1 else 0
    ensures forall j :: 0 <= j < |Without(q, from, i)| ==>
      Origin(from, i, j) < |q| && Without(q, from, i)[j] == q[Origin(from, i, j)]
  {
  }

  /** The shortened table with the new grant: all last grants, in their order, of different keys. */
  lemma GrantPlaced(entries: seq<Grant>, log: seq<Grant>, pos: seq<nat>, interval: nat, next: Grant, i: nat)
    requires Remembers(entries, log, pos, interval) && DistinctKeys(entries) && i == IndexOf(entries, next.key)
    ensures var from := Evicted(entries);
      && from <= |entries| == |pos|
      && var entries', log', pos' := Without(entries, from, i) + [next], log + [next], Without<nat>(pos, from, i) + [|log|];
      && |entries'| == |pos'|
      && (forall j :: 0 <= j < |pos'| ==> pos'[j] < |log'| && log'[pos'[j]] == entries'[j] && IsLast(log', pos'[j]))
      && (forall j, k :: 0 <= j < k < |pos'| ==> pos'[j] < pos'[k])
      && DistinctKeys(entries')
  {
    hide Faded, Forward, Remembers, IsLast;
    var from := Evicted(entries);
    assert |pos| == |entries| by { SameLength(entries, log, pos, interval); }
    WithoutAt(entries, from, i);
    WithoutAt<nat>(pos, from, i);
    var entries', log', pos' := Without(entries, from, i) + [next], log + [next], Without<nat>(pos, from, i) + [|log|];
    var n := |pos'| - 1;
    hide Without;
    forall j | 0 <= j < n ensures pos'[j] < |log| && log'[pos'[j]] == entries'[j] && IsLast(log', pos'[j]) && entries'[j].key != next.key {
      var o := Origin(from, i, j);
      assert o != i && entries[o] in entries && entries[o].key != next.key;
      PlacedBefore(entries, log, pos, interval, next, o);
    }
    NewIsLast(log, next);
    forall j, k | 0 <= j < k < |pos'| ensures pos'[j] < pos'[k] && entries'[j].key != entries'[k].key {
      if k < n {
        assert pos'[j] == pos[Origin(from, i, j)] && pos'[k] == pos[Origin(from, i, k)];
        InOrder(entries, log, pos, interval, Origin(from, i, j), Origin(from, i, k));
      }
    }
  }

  lemma SameLength(entries: seq<Grant>, log: seq<Grant>, pos: seq<nat>, interval: nat)
    requires Remembers(entries, log, pos, interval)
    ensures |pos| == |entries|
  {
  }

  lemma InOrder(entries: seq<Grant>, log: seq<Grant>, pos: seq<nat>, interval: nat, j: nat, k: nat)
    requires Remembers(entries, log, pos, interval) && DistinctKeys(entries) && j < k < |pos|
    ensures |pos| == |entries| && pos[j] < pos[k] && entries[j].key != entries[k].key
  {
  }

  lemma NewIsLast(log: seq<Grant>, next: Grant)
    ensures IsLast(log + [next], |log|) && (log + [next])[|log|] == next
  {
  }

  lemma PlacedBefore(entries: seq<Grant>, log: seq<Grant>, pos: seq<nat>, interval: nat, next: Grant, o: nat)
    requires Remembers(entries, log, pos, interval) && o < |entries| && entries[o].key != next.key
    ensures o < |pos| && pos[o] < |log| && (log + [next])[pos[o]] == entries[o] && IsLast(log + [next], pos[o])
  {
    var log' := log + [next];
    assert log[pos[o]] == entries[o] && IsLast(log, pos[o]);
    forall n | pos[o] < n < |log'| ensures log'[n].key != log'[pos[o]].key {
      assert n < |log| ==> log'[n] == log[n];
    }
  }

  /** What the table no longer remembers has faded. */
  lemma GrantFades(entries: seq<Grant>, log: seq<Grant>, pos: seq<nat>, interval: nat, next: Grant, i: nat, g: nat)
    requires Remembers(entries, log, pos, interval) && DistinctKeys(entries) && i == IndexOf(entries, next.key)
    requires forall e :: e in entries && e.key == next.key ==> next.at < e.at || e.at + interval <= next.at
    requires Forward(log + [next]) && g < |log + [next]| && IsLast(log + [next], g)
    requires Evicted(entries) <= |entries| == |pos| && g !in Without<nat>(pos, Evicted(entries), i) + [|log|]
    ensures Faded(log + [next], g, interval)
  {
    hide Faded, Remembers, DistinctKeys, Without, IndexOf;
    var from := Evicted(entries);
    ForwardBefore(log, next);
    InKept(Without<nat>(pos, from, i), |log|, g);
    EarlierLast(log, next, g);
    hide Forward, IsLast;
    if m: nat :| m < |pos| && pos[m] == g {
      EntryOf(entries, log, pos, interval, m);
      assert m < from || m == i by {
        if from <= m && m != i { StaysIn(pos, from, i, m); }
      }
      assert m == 0 && from == 1;
      OldestFades(entries, log, pos, interval, next);
    } else {
      ForgottenFaded(entries, log, pos, interval, g);
      FadedStays(log, g, interval, next);
    }
  }

  lemma InKept(kept: seq<nat>, last: nat, g: nat)
    requires g !in kept + [last]
    ensures g !in kept && g != last
  {
    assert (kept + [last])[|kept|] == last;
  }

  lemma EarlierLast(log: seq<Grant>, next: Grant, g: nat)
    requires g < |log + [next]| && IsLast(log + [next], g) && g != |log|
    ensures g < |log| && IsLast(log, g) && log[g].key != next.key
  {
    var log' := log + [next];
    assert log'[g] == log[g] && log'[|log|] == next;
    forall n | g < n < |log| ensures log[n].key != log[g].key { assert log'[n] == log[n]; }
  }

  lemma StaysIn<T>(q: seq<T>, from: nat, i: nat, m: nat)
    requires from <= m < |q| && m != i
    ensures q[m] in Without(q, from, i)
  {
    WithoutAt(q, from, i);
    var j := if from <= i < m then m - from - 1 else m - from;
    assert Origin(from, i, j) == m;
  }

  lemma EntryOf(entries: seq<Grant>, log: seq<Grant>, pos: seq<nat>, interval: nat, m: nat)
    requires Remembers(entries, log, pos, interval) && m < |pos|
    ensures m < |entries| && pos[m] < |log| && log[pos[m]] == entries[m]
  {
  }

  lemma ForgottenFaded(entries: seq<Grant>, log: seq<Grant>, pos: seq<nat>, interval: nat, g: nat)
    requires Remembers(entries, log, pos, interval) && Forward(log) && g < |log| && IsLast(log, g) && g !in pos
    ensures Faded(log, g, interval)
  {
  }

  lemma GrantRemembered(entries: seq<Grant>, log: seq<Grant>, pos: seq<nat>, interval: nat, next: Grant, i: nat)
    requires Remembers(entries, log, pos, interval) && DistinctKeys(entries) && i == IndexOf(entries, next.key)
    requires forall e :: e in entries && e.key == next.key ==> next.at < e.at || e.at + interval <= next.at
    requires |entries| <= MAX_TRACKED_CLIENTS
    ensures var from := Evicted(entries);
      && from <= |entries| == |pos|
      && Remembers(Without(entries, from, i) + [next], log + [next], Without<nat>(pos, from, i) + [|log|], interval)
      && DistinctKeys(Without(entries, from, i) + [next])
      && |Without(entries, from, i) + [next]| <= MAX_TRACKED_CLIENTS
  {
    hide Faded, IsLast, Forward;
    var from := Evicted(entries);
    GrantPlaced(entries, log, pos, interval, next, i);
    WithoutAt(entries, from, i);
    hide Without;
    var log', pos' := log + [next], Without<nat>(pos, from, i) + [|log|];
    if Forward(log') {
      forall g: nat | g < |log'| && IsLast(log', g) && g !in pos' ensures Faded(log', g, interval) {
        GrantFades(entries, log, pos, interval, next, i, g);
      }
    }
  }
}
