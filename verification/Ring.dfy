/** A circular buffer with a head index and a count, as used by the forensic ring, the packet
    window and the upload queue. Proved once: overwriting the oldest element when full keeps
    exactly the most recent `|data|` pushes. */
module Ring {
  import opened Machine

  /** The slot `i` places after the head, in linear arithmetic. */
  function Slot(head: nat, i: nat, n: nat): (k: nat)
    requires head < n && i <= n
    ensures k < n
  {
    if head + i < n then head + i else head + i - n
  }

  /** The modular index the program computes is that slot. */
  lemma SlotIsModular(head: nat, i: nat, n: nat)
    requires head < n && i <= n
    ensures (head + i) % n == Slot(head, i, n)
  {
    var k := Slot(head, i, n);
    DivisionUnique(head + i, n, if head + i < n then 0 else 1, k);
  }

  /** The live elements, oldest first. */
  function Items<T>(data: seq<T>, head: nat, count: nat): (s: seq<T>)
    requires head < |data| && count <= |data|
    ensures |s| == count
  {
    seq(count, i requires 0 <= i < count => data[Slot(head, i, |data|)])
  }

  /** Writing the tail slot appends. */
  lemma WriteTail<T>(data: seq<T>, head: nat, count: nat, x: T)
    requires head < |data| && count < |data|
    ensures Items(data[Slot(head, count, |data|) := x], head, count + 1)
         == Items(data, head, count) + [x]
  {
    var r := Items(data[Slot(head, count, |data|) := x], head, count + 1);
    var e := Items(data, head, count) + [x];
    assert forall i :: 0 <= i < count + 1 ==> r[i] == e[i];
  }

  /** Advancing the head drops the oldest element. */
  lemma AdvanceHead<T>(data: seq<T>, head: nat, count: nat)
    requires head < |data| && 0 < count <= |data|
    ensures Items(data, Slot(head, 1, |data|), count - 1) == Items(data, head, count)[1..]
  {
    var r := Items(data, Slot(head, 1, |data|), count - 1);
    var e := Items(data, head, count)[1..];
    assert forall i :: 0 <= i < count - 1 ==> r[i] == e[i];
  }

  /** The same with the modular head the program computes. */
  lemma PopStep<T>(data: seq<T>, head: nat, count: nat)
    requires head < |data| && 0 < count <= |data|
    ensures Items(data, (head + 1) % |data|, count - 1) == Items(data, head, count)[1..]
    ensures (head + 1) % |data| < |data| && Items(data, head, count)[0] == data[head]
  {
    SlotIsModular(head, 1, |data|);
    AdvanceHead(data, head, count);
  }

  /** The element `i` places before the tail, at its modular index. */
  lemma FromTail<T>(data: seq<T>, head: nat, count: nat, i: nat)
    requires head < |data| && i < count <= |data|
    ensures var idx := (head + count - 1 - i) % |data|;
      idx < |data| && data[idx] == Items(data, head, count)[count - 1 - i]
  {
    SlotIsModular(head, count - 1 - i, |data|);
  }

  /** Appending to a drop-oldest buffer of capacity `n`. */
  function Pushed<T>(s: seq<T>, x: T, n: nat): (r: seq<T>)
    requires 0 < n
  {
    LastN(s + [x], n)
  }

  /** The overwrite a full ring performs: the tail slot is the head slot, and the head moves on. */
  lemma OverwriteOldest<T>(data: seq<T>, head: nat, x: T)
    requires head < |data|
    ensures Slot(head, |data|, |data|) == head
    ensures Items(data[head := x], Slot(head, 1, |data|), |data|)
         == Pushed(Items(data, head, |data|), x, |data|)
  {
    var n := |data|;
    var r := Items(data[head := x], Slot(head, 1, n), n);
    var e := Pushed(Items(data, head, n), x, n);
    assert forall i :: 0 <= i < n ==> r[i] == e[i];
  }

  /** Pushing the next history element onto a slice of the history leaves a slice. */
  lemma PushOntoSlice<T>(h: seq<T>, lo: nat, n: nat, capacity: nat)
    requires 0 < capacity && lo <= n < |h|
    ensures Pushed(h[lo..n], h[n], capacity) == h[Max(lo, n + 1 - capacity)..n + 1]
  {
    var grown := h[lo..n] + [h[n]];
    assert grown == h[lo..n + 1];
    LastNOfSlice(h, lo, n + 1, capacity);
  }

  /** Making room in a full buffer before appending is the drop-oldest push. */
  lemma RoomThenAppend<T>(live: seq<T>, x: T, capacity: nat)
    requires 0 < capacity && |live| <= capacity
    ensures (if |live| == capacity then live[1..] else live) + [x] == Pushed(live, x, capacity)
  {
    if |live| == capacity {
      assert (live + [x])[1..] == live[1..] + [x];
    }
  }

  /** One push as the program performs it, with modular indices: the slot written, the head and
      the count it leaves behind. */
  lemma PushStep<T>(data: seq<T>, head: nat, count: nat, x: T)
    requires head < |data| && count <= |data|
    ensures var n := |data|;
      var tail, head' := (head + count) % n, if count == n then (head + 1) % n else head;
      tail < n && head' < n &&
      Items(data[tail := x], head', Min(count + 1, n)) == Pushed(Items(data, head, count), x, n)
  {
    var n := |data|;
    SlotIsModular(head, count, n);
    SlotIsModular(head, 1, n);
    if count == n {
      OverwriteOldest(data, head, x);
    } else {
      WriteTail(data, head, count, x);
      assert |Items(data, head, count) + [x]| <= n;
    }
  }

  /** The buffer after a whole history of pushes. */
  function Run<T>(history: seq<T>, n: nat): (s: seq<T>)
    requires 0 < n
    decreases |history|
  {
    if history == [] then [] else Pushed(Run(history[..|history| - 1], n), history[|history| - 1], n)
  }

  /** The drop-oldest theorem: after any pushes the buffer is the suffix of the last `n`. */
  lemma {:induction false} RunIsSuffix<T>(history: seq<T>, n: nat)
    requires 0 < n
    ensures Run(history, n) == LastN(history, n)
    decreases |history|
  {
    if history != [] {
      var front, x := history[..|history| - 1], history[|history| - 1];
      RunIsSuffix(front, n);
      assert front + [x] == history;
      PushedSuffix(front, x, n);
    }
  }

  lemma PushedSuffix<T>(history: seq<T>, x: T, n: nat)
    requires 0 < n
    ensures Pushed(LastN(history, n), x, n) == LastN(history + [x], n)
  {
    var r, e := Pushed(LastN(history, n), x, n), LastN(history + [x], n);
    assert |r| == |e|;
    assert forall i :: 0 <= i < |e| ==> r[i] == e[i];
  }
}
