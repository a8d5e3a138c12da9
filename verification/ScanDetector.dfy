/** Fan-out scan detection over the flow table: for each source, how many distinct endpoint slots
    it reached, counted with a 2^18-bit map. */
module ScanDetector {
  import opened FlowTables
  import opened EndpointHash

  // ----- The bit map -----

  /** `1u << bit` for a bit number below 8. */
  function BitMask(bit: nat): bv8
    requires bit < 8
  {
    [1 as bv8, 2, 4, 8, 16, 32, 64, 128][bit]
  }

  lemma MaskBits(b: bv8, i: nat, j: nat)
    requires i < 8 && j < 8
    ensures (b | BitMask(i)) & BitMask(j) != 0 <==> i == j || b & BitMask(j) != 0
  {
    MaskWords(b, BitMask(i), BitMask(j));
  }

  lemma MaskWords(b: bv8, m: bv8, n: bv8)
    requires m == 1 || m == 2 || m == 4 || m == 8 || m == 16 || m == 32 || m == 64 || m == 128
    requires n == 1 || n == 2 || n == 4 || n == 8 || n == 16 || n == 32 || n == 64 || n == 128
    ensures (b | m) & n != 0 <==> m == n || b & n != 0
  {
  }

  predicate Marked(seen: seq<bv8>, slot: nat)
    requires |seen| == SLOTS / 8 && slot < SLOTS
  {
    seen[slot / 8] & BitMask(slot % 8) != 0
  }

  /** The bit map represents the set `s`. */
  ghost predicate Represents(seen: seq<bv8>, s: set<nat>) {
    |seen| == SLOTS / 8 &&
    (forall slot :: 0 <= slot < SLOTS ==> (Marked(seen, slot) <==> slot in s))
  }

  lemma MarkSlot(seen: seq<bv8>, s: set<nat>, slot: nat)
    requires Represents(seen, s) && slot < SLOTS
    ensures Represents(seen[slot / 8 := seen[slot / 8] | BitMask(slot % 8)], s + {slot})
  {
    var seen' := seen[slot / 8 := seen[slot / 8] | BitMask(slot % 8)];
    forall t | 0 <= t < SLOTS ensures Marked(seen', t) <==> t in s + {slot} {
      MarkOther(seen, slot, t);
    }
  }

  lemma MarkOther(seen: seq<bv8>, slot: nat, t: nat)
    requires |seen| == SLOTS / 8 && slot < SLOTS && t < SLOTS
    ensures Marked(seen[slot / 8 := seen[slot / 8] | BitMask(slot % 8)], t) <==> t == slot || Marked(seen, t)
  {
    MaskBits(seen[slot / 8], slot % 8, t % 8);
  }

  // ----- What is counted -----

  function EntrySlot(e: FlowEntry): (s: nat)
    ensures s < SLOTS
  {
    SlotOf(e.key.dstIp, e.key.dstPort)
  }

  /** The slots reached by `src` in the first `n` entries. */
  function Slots(entries: seq<FlowEntry>, n: nat, src: string): set<nat>
    requires n <= |entries|
  {
    if n == 0 then {}
    else Slots(entries, n - 1, src) +
         (if entries[n - 1].key.srcIp == src then {EntrySlot(entries[n - 1])} else {})
  }

  /** The destination of the last entry that lit a new slot. */
  function Sample(entries: seq<FlowEntry>, n: nat, src: string, initial: string): string
    requires n <= |entries|
  {
    if n == 0 then initial
    else if entries[n - 1].key.srcIp == src && EntrySlot(entries[n - 1]) !in Slots(entries, n - 1, src)
    then entries[n - 1].key.dstIp
    else Sample(entries, n - 1, src, initial)
  }

  lemma CountStep(entries: seq<FlowEntry>, j: nat, src: string, initial: string)
    requires j < |entries| && entries[j].key.srcIp == src
    ensures var slot, s := EntrySlot(entries[j]), Slots(entries, j, src);
      Slots(entries, j + 1, src) == s + {slot} &&
      |s + {slot}| == |s| + (if slot in s then 0 else 1) &&
      Sample(entries, j + 1, src, initial)
      == if slot in s then Sample(entries, j, src, initial) else entries[j].key.dstIp
  {
    var slot, s := EntrySlot(entries[j]), Slots(entries, j, src);
    if slot in s {
      assert s + {slot} == s;
    }
  }

  datatype Scan = Scan(fanout: nat, src: string, dst: string)

  predicate SourceSeen(entries: seq<FlowEntry>, i: nat)
    requires i < |entries|
  {
    exists j :: 0 <= j < i && entries[j].key.srcIp == entries[i].key.srcIp
  }

  /** The best source among the first `n` entries, the earliest one on ties. */
  function Best(entries: seq<FlowEntry>, n: nat): Scan
    requires n <= |entries|
  {
    if n == 0 then Scan(0, "", "")
    else if SourceSeen(entries, n - 1) then Best(entries, n - 1)
    else Better(Best(entries, n - 1), entries, n - 1)
  }

  function Better(best: Scan, entries: seq<FlowEntry>, i: nat): Scan
    requires i < |entries|
  {
    var src := entries[i].key.srcIp;
    var fanout := |Slots(entries, |entries|, src)|;
    if fanout > best.fanout
    then Scan(fanout, src, Sample(entries, |entries|, src, entries[i].key.dstIp))
    else best
  }

  function FindScan(entries: seq<FlowEntry>): Scan {
    Best(entries, |entries|)
  }

  class Detector {
    const seen: array<bv8>

    constructor ()
      ensures fresh(seen) && seen.Length == SLOTS / 8
    {
      seen := new bv8[SLOTS / 8](_ => 0);
    }

    /** Scores every source of the table's live entries (the table itself is only read). */
    method ScanFanout(entries: seq<FlowEntry>) returns (best: Scan)
      requires seen.Length == SLOTS / 8
      modifies seen
      ensures best == FindScan(entries)
    {
      best := Scan(0, "", "");
      for i := 0 to |entries|
        invariant best == Best(entries, i)
      {
        var e := entries[i];
        var sourceSeen := SeenBefore(entries, i);
        if sourceSeen {
          continue;
        }
        var distinct, sampleDst := CountSlots(entries, e.key.srcIp, e.key.dstIp);
        if distinct > best.fanout {
          best := Scan(distinct, e.key.srcIp, sampleDst);
        }
      }
    }

    /** Each distinct source is scored only once, at its first entry. */
    method SeenBefore(entries: seq<FlowEntry>, i: nat) returns (r: bool)
      requires i < |entries|
      ensures r == SourceSeen(entries, i)
    {
      for j := 0 to i
        invariant forall k :: 0 <= k < j ==> entries[k].key.srcIp != entries[i].key.srcIp
      {
        if entries[j].key.srcIp == entries[i].key.srcIp {
          return true;
        }
      }
      return false;
    }

    /** Lights the slots one source reached and counts the newly lit ones. */
    method CountSlots(entries: seq<FlowEntry>, src: string, firstDst: string)
      returns (distinct: nat, sampleDst: string)
      requires seen.Length == SLOTS / 8
      modifies seen
      ensures distinct == |Slots(entries, |entries|, src)|
      ensures sampleDst == Sample(entries, |entries|, src, firstDst)
    {
      ClearMap();
      distinct, sampleDst := 0, firstDst;
      ghost var lighted: set<nat> := {};
      for j := 0 to |entries|
        invariant Represents(seen[..], lighted) && lighted == Slots(entries, j, src)
        invariant distinct == |lighted|
        invariant sampleDst == Sample(entries, j, src, firstDst)
      {
        var f := entries[j];
        if f.key.srcIp != src {
          continue;
        }
        CountStep(entries, j, src, firstDst);
        var lit := LightEntry(f, lighted);
        lighted := lighted + {EntrySlot(f)};
        if lit {
          distinct := distinct + 1;
          sampleDst := f.key.dstIp;
        }
      }
    }

    method LightEntry(f: FlowEntry, ghost s: set<nat>) returns (lit: bool)
      requires seen.Length == SLOTS / 8 && Represents(seen[..], s)
      modifies seen
      ensures Represents(seen[..], s + {EntrySlot(f)})
      ensures lit == (EntrySlot(f) !in s)
    {
      var h := HashEndpoint(f.key.dstIp, f.key.dstPort);
      lit := LightSlot(h % SLOTS, s);
    }

    method ClearMap()
      requires seen.Length == SLOTS / 8
      modifies seen
      ensures Represents(seen[..], {})
    {
      for k := 0 to seen.Length
        invariant forall i :: 0 <= i < k ==> seen[i] == 0
      {
        seen[k] := 0;
      }
    }

    /** Tests and sets one bit; tells whether it was clear. */
    method LightSlot(slot: nat, ghost s: set<nat>) returns (lit: bool)
      requires seen.Length == SLOTS / 8 && slot < SLOTS
      requires Represents(seen[..], s)
      modifies seen
      ensures Represents(seen[..], s + {slot})
      ensures lit == (slot !in s)
    {
      ghost var before := seen[..];
      assert Marked(before, slot) <==> slot in s;
      lit := seen[slot / 8] & BitMask(slot % 8) == 0;
      if lit {
        MarkSlot(before, s, slot);
        seen[slot / 8] := seen[slot / 8] | BitMask(slot % 8);
        assert seen[..] == before[slot / 8 := before[slot / 8] | BitMask(slot % 8)];
      } else {
        assert s + {slot} == s;
      }
    }
  }
}
