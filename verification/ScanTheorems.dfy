/** What the fan-out number means: never more than the distinct endpoints a source reached, never
    fewer than the distinct ports it reached on any one host, and the maximum over all sources. */
module ScanTheorems {
  import opened Machine
  import opened Packets
  import opened GroupBy
  import opened FlowTables
  import opened EndpointHash
  import opened ScanDetector

  // ----- Cardinality of images -----

  lemma {:induction false} ImageNotLarger<A, B>(s: set<A>, f: A -> B)
    ensures |set x | x in s :: f(x)| <= |s|
    decreases |s|
  {
    if |s| > 0 {
      var a :| a in s;
      var t := s - {a};
      ImageNotLarger(t, f);
      var image, rest := set x | x in s :: f(x), set x | x in t :: f(x);
      assert image == rest + {f(a)};
    }
  }

  lemma {:induction false} InjectiveImage<A(!new), B>(s: set<A>, f: A -> B)
    requires forall x, y :: x in s && y in s && f(x) == f(y) ==> x == y
    ensures |set x | x in s :: f(x)| == |s|
    decreases |s|
  {
    if |s| > 0 {
      var a :| a in s;
      var t := s - {a};
      InjectiveImage(t, f);
      var image, rest := set x | x in s :: f(x), set x | x in t :: f(x);
      assert image == rest + {f(a)} && f(a) !in rest;
    }
  }

  lemma SubsetNotLarger<A>(s: set<A>, t: set<A>)
    requires s <= t
    ensures |s| <= |t|
  {
    assert t == s + (t - s);
  }

  lemma CoveredNotLarger<A, B>(s: set<B>, t: set<A>, f: A -> B)
    requires forall b :: b in s ==> exists a :: a in t && f(a) == b
    ensures |s| <= |t|
  {
    ImageNotLarger(t, f);
    SubsetNotLarger(s, set a | a in t :: f(a));
  }

  lemma InjectionNotLarger<A(!new), B>(t: set<A>, s: set<B>, f: A -> B)
    requires forall a :: a in t ==> f(a) in s
    requires forall x, y :: x in t && y in t && f(x) == f(y) ==> x == y
    ensures |t| <= |s|
  {
    InjectiveImage(t, f);
    SubsetNotLarger(set a | a in t :: f(a), s);
  }

  // ----- Endpoints and ports in the table -----

  /** The distinct destination endpoints of `src`. */
  function Endpoints(entries: seq<FlowEntry>, src: string): set<(string, u16)> {
    set e | e in entries && e.key.srcIp == src :: (e.key.dstIp, e.key.dstPort)
  }

  /** The distinct ports `src` reached on host `dst`. */
  function Ports(entries: seq<FlowEntry>, src: string, dst: string): set<u16> {
    set e | e in entries && e.key.srcIp == src && e.key.dstIp == dst :: e.key.dstPort
  }

  lemma {:induction false} SlotsMembers(entries: seq<FlowEntry>, n: nat, src: string, slot: nat)
    requires n <= |entries|
    ensures slot in Slots(entries, n, src)
      <==> exists i :: 0 <= i < n && entries[i].key.srcIp == src && EntrySlot(entries[i]) == slot
  {
    if n > 0 {
      SlotsMembers(entries, n - 1, src, slot);
    }
  }

  /** Collisions can only lose endpoints: the slot count never exceeds the endpoint count. */
  lemma NeverOvercounts(entries: seq<FlowEntry>, src: string)
    ensures |Slots(entries, |entries|, src)| <= |Endpoints(entries, src)|
  {
    var f := (ep: (string, u16)) => SlotOf(ep.0, ep.1);
    var eps, slots := Endpoints(entries, src), Slots(entries, |entries|, src);
    forall slot | slot in slots ensures exists ep :: ep in eps && f(ep) == slot {
      var ep := SlotHasEndpoint(entries, src, slot);
      assert f(ep) == slot;
    }
    CoveredNotLarger(slots, eps, f);
  }

  lemma SlotHasEndpoint(entries: seq<FlowEntry>, src: string, slot: nat) returns (ep: (string, u16))
    requires slot in Slots(entries, |entries|, src)
    ensures ep in Endpoints(entries, src) && SlotOf(ep.0, ep.1) == slot
  {
    SlotsMembers(entries, |entries|, src, slot);
    var i :| 0 <= i < |entries| && entries[i].key.srcIp == src && EntrySlot(entries[i]) == slot;
    assert entries[i] in entries;
    ep := (entries[i].key.dstIp, entries[i].key.dstPort);
  }

  /** On one host nothing is lost: every distinct port of it has its own slot. */
  lemma ExactPerHost(entries: seq<FlowEntry>, src: string, dst: string)
    ensures |Ports(entries, src, dst)| <= |Slots(entries, |entries|, src)|
  {
    var f := (p: u16) => SlotOf(dst, p);
    var ports, slots := Ports(entries, src, dst), Slots(entries, |entries|, src);
    forall p, q | p in ports && q in ports && f(p) == f(q) ensures p == q {
      PortsDoNotCollide(dst, p, q);
    }
    forall p | p in ports ensures f(p) in slots {
      PortHasSlot(entries, src, dst, p);
    }
    InjectionNotLarger(ports, slots, f);
  }

  lemma PortHasSlot(entries: seq<FlowEntry>, src: string, dst: string, port: u16)
    requires port in Ports(entries, src, dst)
    ensures SlotOf(dst, port) in Slots(entries, |entries|, src)
  {
    var e :| e in entries && e.key.srcIp == src && e.key.dstIp == dst && e.key.dstPort == port;
    var i :| 0 <= i < |entries| && entries[i] == e;
    assert EntrySlot(entries[i]) == SlotOf(dst, port);
    SlotsMembers(entries, |entries|, src, SlotOf(dst, port));
  }

  // ----- The reported scan -----

  predicate Contacted(entries: seq<FlowEntry>, src: string, dst: string) {
    exists j :: 0 <= j < |entries| && entries[j].key.srcIp == src && entries[j].key.dstIp == dst
  }

  lemma {:induction false} SampleContacted(entries: seq<FlowEntry>, n: nat, src: string, initial: string)
    requires n <= |entries| && Contacted(entries, src, initial)
    ensures Contacted(entries, src, Sample(entries, n, src, initial))
  {
    if n > 0 {
      SampleContacted(entries, n - 1, src, initial);
    }
  }

  ghost predicate Names(entries: seq<FlowEntry>, scan: Scan) {
    scan.fanout == |Slots(entries, |entries|, scan.src)| && Contacted(entries, scan.src, scan.dst)
  }

  ghost predicate MaximumOver(entries: seq<FlowEntry>, n: nat, best: Scan)
    requires n <= |entries|
  {
    (best.fanout > 0 ==> Names(entries, best)) &&
    forall i {:trigger Slots(entries, |entries|, entries[i].key.srcIp)} :: 0 <= i < n ==>
      |Slots(entries, |entries|, entries[i].key.srcIp)| <= best.fanout
  }

  lemma {:induction false} BestIsMaximum(entries: seq<FlowEntry>, n: nat)
    requires n <= |entries|
    ensures MaximumOver(entries, n, Best(entries, n))
    decreases n
  {
    if n > 0 {
      BestIsMaximum(entries, n - 1);
      var best := Best(entries, n - 1);
      if SourceSeen(entries, n - 1) {
        SeenKeepsMaximum(entries, n, best);
        assert Best(entries, n) == best;
      } else {
        BetterKeepsMaximum(entries, n, best);
        assert Best(entries, n) == Better(best, entries, n - 1);
      }
    }
  }

  lemma SeenKeepsMaximum(entries: seq<FlowEntry>, n: nat, best: Scan)
    requires 0 < n <= |entries| && MaximumOver(entries, n - 1, best) && SourceSeen(entries, n - 1)
    ensures MaximumOver(entries, n, best)
  {
    var j :| 0 <= j < n - 1 && entries[j].key.srcIp == entries[n - 1].key.srcIp;
    assert |Slots(entries, |entries|, entries[j].key.srcIp)| <= best.fanout;
  }

  lemma BetterKeepsMaximum(entries: seq<FlowEntry>, n: nat, best: Scan)
    requires 0 < n <= |entries| && MaximumOver(entries, n - 1, best)
    ensures MaximumOver(entries, n, Better(best, entries, n - 1))
  {
    var e := entries[n - 1];
    assert Contacted(entries, e.key.srcIp, e.key.dstIp);
    SampleContacted(entries, |entries|, e.key.srcIp, e.key.dstIp);
  }

  /** Entry `k` of a source lights a slot that no earlier entry of the source does. */
  predicate LightsNew(entries: seq<FlowEntry>, src: string, k: nat)
    requires k < |entries|
  {
    entries[k].key.srcIp == src &&
    forall i :: 0 <= i < k && entries[i].key.srcIp == src ==>
      SlotOf(entries[i].key.dstIp, entries[i].key.dstPort) != SlotOf(entries[k].key.dstIp, entries[k].key.dstPort)
  }

  /** Entry `k`, which leads to `dst`, is the last one of the first `n` that lights a new slot. */
  predicate LastNewAt(entries: seq<FlowEntry>, n: nat, src: string, dst: string, k: nat)
    requires n <= |entries|
  {
    k < n && LightsNew(entries, src, k) && entries[k].key.dstIp == dst &&
    forall j :: k < j < n ==> !LightsNew(entries, src, j)
  }

  lemma NewSlot(entries: seq<FlowEntry>, k: nat, src: string)
    requires k < |entries| && entries[k].key.srcIp == src
    ensures EntrySlot(entries[k]) !in Slots(entries, k, src) <==> LightsNew(entries, src, k)
  {
    SlotsMembers(entries, k, src, EntrySlot(entries[k]));
  }

  lemma {:induction false} SampleIsLastNew(entries: seq<FlowEntry>, n: nat, src: string, initial: string)
      returns (k: nat)
    requires n <= |entries|
    ensures Slots(entries, n, src) == {} || LastNewAt(entries, n, src, Sample(entries, n, src, initial), k)
    decreases n
  {
    k := 0;
    if n > 0 {
      k := SampleIsLastNew(entries, n - 1, src, initial);
      var e := entries[n - 1];
      if e.key.srcIp == src {
        NewSlot(entries, n - 1, src);
        if LightsNew(entries, src, n - 1) {
          assert Sample(entries, n, src, initial) == e.key.dstIp;
          k := n - 1;
        } else {
          assert Slots(entries, n - 1, src) != {};
        }
      }
    }
  }

  /** The source of entry `i` is that of `best`, and every earlier source reached less. */
  ghost predicate FirstAt(entries: seq<FlowEntry>, n: nat, best: Scan, i: nat)
    requires n <= |entries|
  {
    i < n && entries[i].key.srcIp == best.src &&
    forall j {:trigger Slots(entries, |entries|, entries[j].key.srcIp)} :: 0 <= j < i ==>
      |Slots(entries, |entries|, entries[j].key.srcIp)| < best.fanout
  }

  ghost predicate NamesFirst(entries: seq<FlowEntry>, n: nat, best: Scan, i: nat, k: nat)
    requires n <= |entries|
  {
    best.fanout > 0 ==> FirstAt(entries, n, best, i) && LastNewAt(entries, |entries|, best.src, best.dst, k)
  }

  lemma {:induction false} BestIsFirst(entries: seq<FlowEntry>, n: nat) returns (i: nat, k: nat)
    requires n <= |entries|
    ensures NamesFirst(entries, n, Best(entries, n), i, k)
    decreases n
  {
    if n == 0 {
      i, k := 0, 0;
    } else {
      i, k := BestIsFirst(entries, n - 1);
      var best := Best(entries, n - 1);
      if SourceSeen(entries, n - 1) {
        SeenKeepsFirst(entries, n, best, i, k);
        assert Best(entries, n) == best;
      } else {
        BestIsMaximum(entries, n - 1);
        i, k := BetterIsFirst(entries, n, best, i, k);
        assert Best(entries, n) == Better(best, entries, n - 1);
      }
    }
  }

  lemma SeenKeepsFirst(entries: seq<FlowEntry>, n: nat, best: Scan, i: nat, k: nat)
    requires 0 < n <= |entries|
    ensures NamesFirst(entries, n - 1, best, i, k) ==> NamesFirst(entries, n, best, i, k)
  {
  }

  lemma BetterIsFirst(entries: seq<FlowEntry>, n: nat, best: Scan, i: nat, k: nat) returns (i': nat, k': nat)
    requires 0 < n <= |entries|
    ensures NamesFirst(entries, n - 1, best, i, k) && MaximumOver(entries, n - 1, best) ==>
      NamesFirst(entries, n, Better(best, entries, n - 1), i', k')
  {
    i', k' := i, k;
    var e := entries[n - 1];
    if |Slots(entries, |entries|, e.key.srcIp)| > best.fanout {
      i' := n - 1;
      k' := SampleIsLastNew(entries, |entries|, e.key.srcIp, e.key.dstIp);
    }
  }

  /** The scan found names the first source to reach that fan-out, and the destination of its last entry
      that lights a new slot. */
  lemma ScanIsFirst(entries: seq<FlowEntry>) returns (i: nat, k: nat)
    ensures NamesFirst(entries, |entries|, FindScan(entries), i, k)
  {
    i, k := BestIsFirst(entries, |entries|);
  }

  /** The whole contract of the scan signal, for any table contents. */
  lemma ScanMeaning(entries: seq<FlowEntry>)
    ensures var scan := FindScan(entries);
      && (scan.fanout > 0 ==>
            |Endpoints(entries, scan.src)| >= scan.fanout && Contacted(entries, scan.src, scan.dst))
      && (forall src, dst :: |Ports(entries, src, dst)| <= scan.fanout)
      && (scan.fanout == 0 <==> |entries| == 0)
  {
    var scan := FindScan(entries);
    BestIsMaximum(entries, |entries|);
    NeverOvercounts(entries, scan.src);
    forall src, dst ensures |Ports(entries, src, dst)| <= scan.fanout {
      PortsWithin(entries, src, dst);
    }
    if |entries| > 0 {
      var e := entries[0];
      PortsWithin(entries, e.key.srcIp, e.key.dstIp);
      assert e.key.dstPort in Ports(entries, e.key.srcIp, e.key.dstIp);
      SubsetNotLarger({e.key.dstPort}, Ports(entries, e.key.srcIp, e.key.dstIp));
    }
  }

  lemma {:induction false} SlotsAtMost(entries: seq<FlowEntry>, n: nat, src: string)
    requires n <= |entries|
    ensures |Slots(entries, n, src)| <= n
  {
    if n > 0 {
      SlotsAtMost(entries, n - 1, src);
    }
  }

  lemma FanoutBounded(entries: seq<FlowEntry>)
    ensures FindScan(entries).fanout <= |entries|
  {
    BestIsMaximum(entries, |entries|);
    SlotsAtMost(entries, |entries|, FindScan(entries).src);
  }

  lemma PortsWithin(entries: seq<FlowEntry>, src: string, dst: string)
    ensures |Ports(entries, src, dst)| <= FindScan(entries).fanout
  {
    BestIsMaximum(entries, |entries|);
    ExactPerHost(entries, src, dst);
    var ports := Ports(entries, src, dst);
    if |ports| > 0 {
      var p :| p in ports;
      var e :| e in entries && e.key.srcIp == src && e.key.dstIp == dst && e.key.dstPort == p;
      var i :| 0 <= i < |entries| && entries[i] == e;
      assert |Slots(entries, |entries|, entries[i].key.srcIp)| <= FindScan(entries).fanout;
    }
  }

  // ----- From the table back to the packets offered to it -----

  /** Every entry stands for packets that were offered, with their exact counts modulo 2^64, and
      no two entries share a 5-tuple. */
  lemma EntriesAreTallies(offered: seq<ParsedPacket>, capacity: nat)
    ensures var e, h := Entries(offered, capacity), ItemsOf(offered);
      && (forall i, j :: 0 <= i < j < |e| ==> e[i].key != e[j].key)
      && (forall i :: 0 <= i < |e| ==>
            e[i].packets == Wrap64(Hits(h, |h|, e[i].key)) && e[i].bytes == Wrap64(Volume(h, |h|, e[i].key)))
      && (forall i :: 0 <= i < |e| ==> exists k :: 0 <= k < |offered| && KeyOf(offered[k]) == e[i].key)
  {
    var e, h := Entries(offered, capacity), ItemsOf(offered);
    FirstsDistinct(h, |h|);
    var f := Firsts(h, |h|);
    assert forall i :: 0 <= i < |e| ==> e[i].key == f[i];
    forall i, j | 0 <= i < j < |e| ensures e[i].key != e[j].key {
      assert f[i] != f[j];
    }
    forall i | 0 <= i < |e| ensures exists k :: 0 <= k < |offered| && KeyOf(offered[k]) == e[i].key {
      assert f[i] in f;
      FirstsComplete(h, |h|, f[i]);
      var k :| 0 <= k < |h| && h[k].key == f[i];
      assert KeyOf(offered[k]) == e[i].key;
    }
  }

  /** Without overflow every offered packet has its entry. */
  lemma EveryPacketHasEntry(offered: seq<ParsedPacket>, capacity: nat, p: ParsedPacket)
    requires !FlowsOverflowed(offered, capacity) && p in offered
    ensures exists e :: e in Entries(offered, capacity) && e.key == KeyOf(p)
  {
    var h := ItemsOf(offered);
    var k :| 0 <= k < |offered| && offered[k] == p;
    assert h[k].key == KeyOf(p);
    FirstsComplete(h, |h|, KeyOf(p));
    var f := Firsts(h, |h|);
    var i :| 0 <= i < |f| && f[i] == KeyOf(p);
    var e := Entries(offered, capacity)[i];
    assert e in Entries(offered, capacity) && e.key == KeyOf(p);
  }

  /** The distinct ports of `dst` that `src` sent packets to. */
  function PortsReached(offered: seq<ParsedPacket>, src: string, dst: string): set<u16> {
    set p | p in offered && p.srcIp == src && p.dstIp == dst :: p.dstPort
  }

  lemma PortsReachedInTable(offered: seq<ParsedPacket>, capacity: nat, src: string, dst: string)
    requires !FlowsOverflowed(offered, capacity)
    ensures |PortsReached(offered, src, dst)| <= |Ports(Entries(offered, capacity), src, dst)|
  {
    var entries := Entries(offered, capacity);
    forall port | port in PortsReached(offered, src, dst) ensures port in Ports(entries, src, dst) {
      var p :| p in offered && p.srcIp == src && p.dstIp == dst && p.dstPort == port;
      EveryPacketHasEntry(offered, capacity, p);
    }
    SubsetNotLarger(PortsReached(offered, src, dst), Ports(entries, src, dst));
  }
}
