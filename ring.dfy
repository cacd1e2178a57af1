/**
 * The history's circular buffer, stated on the sequence of its slots: which
 * physical slot holds which live entry, and what one insertion does to that.
 * Positions wrap by one subtraction (Slot); Wrap connects that to the `%`
 * the shell computes with.
 */
module HistoryRing {
  import opened Wrappers

  /** The physical slot of logical position i in a ring of n slots whose oldest entry sits at start. */
  function Slot(i: nat, start: nat, n: nat): (k: nat)
    requires start < n && i < n
    ensures k < n
  {
    if start + i < n then start + i else start + i - n
  }

  /** The logical position of physical slot k: the inverse of Slot. */
  function Offset(k: nat, start: nat, n: nat): (i: nat)
    requires k < n && start < n
    ensures i < n && Slot(i, start, n) == k
  {
    if k >= start then k - start else k + n - start
  }

  /** The shell's `(start + i) % n` is Slot, whenever start and i are below n. */
  lemma Wrap(start: nat, i: nat, n: nat)
    requires start < n && i < n
    ensures (start + i) % n == Slot(i, start, n)
  {
    var s := start + i;
    if s < n {
      assert s == 0 * n + s;
    } else {
      assert s == 1 * n + (s - n);
    }
  }

  /**
   * The ring invariant: the slot of position i holds live entry i (oldest
   * first) and every slot outside the live range is empty.
   */
  ghost predicate Holds(slots: seq<Option<string>>, start: nat, live: seq<string>) {
    0 < |slots| && start < |slots| && |live| <= |slots| &&
    (forall i :: 0 <= i < |live| ==> slots[Slot(i, start, |slots|)] == Some(live[i])) &&
    (forall k :: 0 <= k < |slots| && Offset(k, start, |slots|) >= |live| ==> slots[k] == None)
  }

  /** A freshly allocated ring, every slot empty, holds no entries. */
  lemma EmptyHolds(slots: seq<Option<string>>)
    requires 0 < |slots| && forall k :: 0 <= k < |slots| ==> slots[k] == None
    ensures Holds(slots, 0, [])
  {
  }

  /** Where the next entry goes: after the newest one, which at capacity is the oldest one's slot. */
  function Next(start: nat, size: nat, n: nat): (k: nat)
    requires start < n && size <= n
    ensures k < n
  {
    if size < n then Slot(size, start, n) else start
  }

  /** The oldest entry's slot after an eviction. */
  function Advance(start: nat, n: nat): (k: nat)
    requires start < n
    ensures k < n
  {
    if start + 1 < n then start + 1 else 0
  }

  /**
   * Inserting c at the next slot: below capacity the live entries grow by c
   * and start stays; at capacity the oldest entry is overwritten (that slot
   * is exactly start) and start advances by one.
   */
  lemma Insert(slots: seq<Option<string>>, start: nat, live: seq<string>, c: string)
    requires Holds(slots, start, live)
    ensures var n := |slots|;
      var updated := slots[Next(start, |live|, n) := Some(c)];
      if |live| < n then Holds(updated, start, live + [c])
      else Holds(updated, Advance(start, n), live[1..] + [c])
  {
    var n := |slots|;
    var updated := slots[Next(start, |live|, n) := Some(c)];
    if |live| < n {
      var live' := live + [c];
      forall i | 0 <= i < |live'|
        ensures updated[Slot(i, start, n)] == Some(live'[i])
      {
      }
      forall k | 0 <= k < n && Offset(k, start, n) >= |live'|
        ensures updated[k] == None
      {
      }
    } else {
      var start' := Advance(start, n);
      var live' := live[1..] + [c];
      forall i | 0 <= i < |live'|
        ensures updated[Slot(i, start', n)] == Some(live'[i])
      {
        if i < n - 1 {
          assert Slot(i, start', n) == Slot(i + 1, start, n);
        }
      }
    }
  }

  /** The commands a ring of n slots keeps: the last min(n, |recorded|) commands recorded, oldest first. */
  function Window(recorded: seq<string>, n: nat): (w: seq<string>)
    ensures |w| == if |recorded| < n then |recorded| else n
  {
    if |recorded| < n then recorded else recorded[|recorded| - n..]
  }

  /** Recording one more command moves the window exactly as the ring insertion does. */
  lemma WindowGrows(recorded: seq<string>, c: string, n: nat)
    requires 0 < n
    ensures var w := Window(recorded, n);
      Window(recorded + [c], n) == if |w| < n then w + [c] else w[1..] + [c]
  {
    var r := recorded + [c];
    if |recorded| >= n {
      assert r[|r| - n..] == recorded[|recorded| - n..][1..] + [c];
    }
  }

  /**
   * The history fields agree with the commands recorded: the ring of n slots
   * holds the last min(n, |recorded|) of them and size counts them.
   */
  ghost predicate Keeps(slots: seq<Option<string>>, start: nat, size: nat, recorded: seq<string>)
  {
    size == |Window(recorded, |slots|)| && Holds(slots, start, Window(recorded, |slots|))
  }

  /** Under the agreement, live position i holds command |recorded| - size + i. */
  lemma KeptAt(slots: seq<Option<string>>, start: nat, size: nat, recorded: seq<string>, i: nat)
    requires Keeps(slots, start, size, recorded) && i < size
    ensures start < |slots| && i < |slots| && size <= |recorded|
    ensures Window(recorded, |slots|)[i] == recorded[|recorded| - size + i]
    ensures slots[Slot(i, start, |slots|)] == Some(recorded[|recorded| - size + i])
  {
    var w := Window(recorded, |slots|);
    assert |w| == size <= |recorded| && i < |slots|;
    assert w[i] == recorded[|recorded| - size + i];
    assert slots[Slot(i, start, |slots|)] == Some(w[i]);
  }

  /**
   * Recording c by writing the next slot, then advancing start when the ring
   * was full or growing size otherwise, keeps the agreement; the newest live
   * entry, at position size' - 1, is c.
   */
  lemma Record(slots: seq<Option<string>>, start: nat, size: nat, recorded: seq<string>, c: string,
                updated: seq<Option<string>>, start': nat, size': nat)
    requires Keeps(slots, start, size, recorded)
    requires updated == slots[Next(start, size, |slots|) := Some(c)]
    requires start' == if size == |slots| then Advance(start, |slots|) else start
    requires size' == if size == |slots| then size else size + 1
    ensures Keeps(updated, start', size', recorded + [c])
    ensures 0 < size' <= |slots| && start' < |slots| && updated[Slot(size' - 1, start', |slots|)] == Some(c)
  {
    var n := |slots|;
    var live := Window(recorded, n);
    Insert(slots, start, live, c);
    WindowGrows(recorded, c, n);
    var live' := Window(recorded + [c], n);
    if size < n {
      assert live' == live + [c];
      assert Holds(updated, start', live');
    } else {
      assert live' == live[1..] + [c];
      assert Holds(updated, start', live');
    }
    assert |live'| == size' && live'[size' - 1] == c;
  }
}
