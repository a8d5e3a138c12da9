/** The per-window flow table: packets grouped by 5-tuple, first come first kept. */
module FlowTables {
  import opened Machine
  import opened Packets
  import opened GroupBy

  const FLOW_TABLE_CAPACITY: nat := 2048

  datatype FlowKey = FlowKey(srcIp: string, dstIp: string, srcPort: u16, dstPort: u16, protocol: u8)
  datatype FlowEntry = FlowEntry(key: FlowKey, packets: u64, bytes: u64)

  function KeyOf(p: ParsedPacket): FlowKey {
    FlowKey(p.srcIp, p.dstIp, p.srcPort, p.dstPort, p.protocol)
  }

  function ItemOf(p: ParsedPacket): Item<FlowKey> {
    Item(KeyOf(p), p.packetSize)
  }

  function ItemsOf(offered: seq<ParsedPacket>): (s: seq<Item<FlowKey>>)
    ensures |s| == |offered|
  {
    seq(|offered|, i requires 0 <= i < |offered| => ItemOf(offered[i]))
  }

  /** The stored form of an exact tally: 64-bit counters. */
  function EntryOf(t: Tally<FlowKey>): FlowEntry {
    FlowEntry(t.key, Wrap64(t.hits), Wrap64(t.volume))
  }

  /** What the table must hold after being offered these packets since the last reset. */
  function Entries(offered: seq<ParsedPacket>, capacity: nat): (e: seq<FlowEntry>)
    ensures |e| == |Summary(ItemsOf(offered), capacity)|
  {
    var s := Summary(ItemsOf(offered), capacity);
    seq(|s|, i requires 0 <= i < |s| => EntryOf(s[i]))
  }

  predicate FlowsOverflowed(offered: seq<ParsedPacket>, capacity: nat) {
    GroupBy.Overflowed(ItemsOf(offered), capacity)
  }

  predicate FlowMatches(entry: FlowEntry, p: ParsedPacket) {
    entry.key.protocol == p.protocol &&
    entry.key.srcPort == p.srcPort &&
    entry.key.dstPort == p.dstPort &&
    entry.key.srcIp == p.srcIp &&
    entry.key.dstIp == p.dstIp
  }

  predicate OfProtocol(entry: FlowEntry, protocol: u8) {
    protocol == 0 || entry.key.protocol == protocol
  }

  /** The busiest of the first `n` entries of a protocol (0 stands for any). */
  function TopOf(entries: seq<FlowEntry>, protocol: u8, n: nat): Option<FlowEntry>
    requires n <= |entries|
  {
    if n == 0 then None
    else
      var best := TopOf(entries, protocol, n - 1);
      if OfProtocol(entries[n - 1], protocol) && (best.None? || entries[n - 1].packets > best.value.packets)
      then Some(entries[n - 1]) else best
  }

  /** The busiest matching entry, the earliest one on ties. */
  ghost predicate IsTop(entries: seq<FlowEntry>, protocol: u8, top: Option<FlowEntry>) {
    match top
    case None => forall i :: 0 <= i < |entries| ==> !OfProtocol(entries[i], protocol)
    case Some(e) => exists k :: 0 <= k < |entries| && IsTopAt(entries, protocol, k) && entries[k] == e
  }

  ghost predicate IsTopAt(entries: seq<FlowEntry>, protocol: u8, k: nat)
    requires k < |entries|
  {
    OfProtocol(entries[k], protocol) &&
    forall i :: 0 <= i < |entries| && OfProtocol(entries[i], protocol) ==>
      entries[i].packets <= entries[k].packets &&
      (i < k ==> entries[i].packets < entries[k].packets)
  }

  class FlowTable {
    const entries: array<FlowEntry>
    var count: nat
    var overflowLogged: bool

    ghost var offered: seq<ParsedPacket>  // every packet since the last reset

    /** The live part of the array is exactly the bounded group-by of what was offered, and the
        overflow flag says whether a packet was turned away. */
    ghost predicate Valid()
      reads this, entries
    {
      0 < entries.Length && count <= entries.Length &&
      entries[..count] == Entries(offered, entries.Length) &&
      overflowLogged == FlowsOverflowed(offered, entries.Length)
    }

    constructor (capacity: nat)
      requires 0 < capacity
      ensures Valid() && fresh(entries) && entries.Length == capacity && offered == []
    {
      entries := new FlowEntry[capacity](_ => FlowEntry(FlowKey("", "", 0, 0, 0), 0, 0));
      count, overflowLogged := 0, false;
      offered := [];
    }

    method Reset()
      requires Valid()
      modifies this, entries
      ensures Valid() && offered == []
    {
      count, overflowLogged := 0, false;
      offered := [];
    }

    method Add(p: ParsedPacket)
      requires Valid()
      modifies this, entries
      ensures Valid() && offered == old(offered) + [p]
    {
      ghost var live := entries[..count];
      for i := 0 to count
        invariant entries[..count] == live && Valid() && offered == old(offered)
        invariant forall j :: 0 <= j < i ==> live[j].key != KeyOf(p)
      {
        assert entries[i] == live[i];
        if FlowMatches(entries[i], p) {
          Bump(i, p);
          return;
        }
      }
      Append(p);
    }

    /** A further packet of a known flow. */
    method Bump(i: nat, p: ParsedPacket)
      requires Valid() && i < count && entries[i].key == KeyOf(p)
      modifies this, entries
      ensures Valid() && offered == old(offered) + [p]
    {
      ghost var live := entries[..count];
      assert entries[i] == live[i];
      EntriesSnocHit(offered, p, entries.Length, i);
      entries[i] := entries[i].(packets := Wrap64(entries[i].packets + 1),
                                bytes := Wrap64(entries[i].bytes + p.packetSize));
      assert entries[..count] == live[i := entries[i]];
      offered := offered + [p];
    }

    /** The first packet of an unknown flow: a new entry, or overflow. */
    method Append(p: ParsedPacket)
      requires Valid() && forall j :: 0 <= j < count ==> entries[j].key != KeyOf(p)
      modifies this, entries
      ensures Valid() && offered == old(offered) + [p]
    {
      ghost var live := entries[..count];
      EntriesSnocMiss(offered, p, entries.Length);
      if count >= entries.Length {
        if !overflowLogged {
          overflowLogged := true;
        }
      } else {
        entries[count] := FlowEntry(KeyOf(p), 1, Wrap64(p.packetSize));
        count := count + 1;
        assert entries[..count] == live + [FlowEntry(KeyOf(p), 1, Wrap64(p.packetSize))];
      }
      offered := offered + [p];
    }

    method Top(protocol: u8) returns (best: Option<FlowEntry>)
      requires Valid()
      ensures best == TopOf(entries[..count], protocol, count)
    {
      best := None;
      ghost var live := entries[..count];
      for i := 0 to count
        invariant best == TopOf(live, protocol, i)
      {
        assert entries[i] == live[i];
        if protocol != 0 && entries[i].key.protocol != protocol {
          continue;
        }
        if best.None? || entries[i].packets > best.value.packets {
          best := Some(entries[i]);
        }
      }
    }
  }

  /** The reported flow is a busiest matching entry, the earliest on ties; none is reported only
      when no entry matches. */
  lemma TopIsBusiest(entries: seq<FlowEntry>, protocol: u8)
    ensures IsTop(entries, protocol, TopOf(entries, protocol, |entries|))
  {
    var at := TopIndex(entries, protocol, |entries|);
  }

  lemma {:induction false} TopIndex(entries: seq<FlowEntry>, protocol: u8, n: nat) returns (at: nat)
    requires n <= |entries|
    ensures TopOf(entries, protocol, n).None? ==> forall i :: 0 <= i < n ==> !OfProtocol(entries[i], protocol)
    ensures TopOf(entries, protocol, n).Some? ==>
      at < n && TopOf(entries, protocol, n).value == entries[at] && OfProtocol(entries[at], protocol) &&
      forall i :: 0 <= i < n && OfProtocol(entries[i], protocol) ==>
        entries[i].packets <= entries[at].packets && (i < at ==> entries[i].packets < entries[at].packets)
  {
    at := 0;
    if n > 0 {
      at := TopIndex(entries, protocol, n - 1);
      var best := TopOf(entries, protocol, n - 1);
      if OfProtocol(entries[n - 1], protocol) && (best.None? || entries[n - 1].packets > best.value.packets) {
        at := n - 1;
      }
    }
  }

  // ----- How one packet changes the specified contents -----

  lemma ItemsSnoc(offered: seq<ParsedPacket>, p: ParsedPacket)
    ensures ItemsOf(offered + [p]) == ItemsOf(offered) + [ItemOf(p)]
  {
  }

  lemma EntriesSnocHit(offered: seq<ParsedPacket>, p: ParsedPacket, capacity: nat, at: nat)
    requires at < |Entries(offered, capacity)| && Entries(offered, capacity)[at].key == KeyOf(p)
    ensures var e := Entries(offered, capacity);
      Entries(offered + [p], capacity)
      == e[at := FlowEntry(KeyOf(p), Wrap64(e[at].packets + 1), Wrap64(e[at].bytes + p.packetSize))]
    ensures FlowsOverflowed(offered + [p], capacity) == FlowsOverflowed(offered, capacity)
  {
    var h := ItemsOf(offered);
    var s := Summary(h, capacity);
    ItemsSnoc(offered, p);
    SnocHit(h, ItemOf(p), capacity, at);
    WrapAdd(s[at].hits, 1);
    WrapAdd(s[at].volume, p.packetSize);
  }

  lemma EntriesSnocMiss(offered: seq<ParsedPacket>, p: ParsedPacket, capacity: nat)
    requires forall i :: 0 <= i < |Entries(offered, capacity)| ==> Entries(offered, capacity)[i].key != KeyOf(p)
    ensures var e := Entries(offered, capacity);
      Entries(offered + [p], capacity)
      == if |e| < capacity then e + [FlowEntry(KeyOf(p), 1, Wrap64(p.packetSize))] else e
    ensures FlowsOverflowed(offered + [p], capacity) == (|Entries(offered, capacity)| == capacity)
  {
    var h := ItemsOf(offered);
    var a := Admitted(h, capacity);
    assert forall i :: 0 <= i < |a| ==> a[i] == Entries(offered, capacity)[i].key;
    ItemsSnoc(offered, p);
    if |a| < capacity {
      SnocNew(h, ItemOf(p), capacity);
    } else {
      SnocDrop(h, ItemOf(p), capacity);
    }
  }
}
