/** The per-window table of DNS queries: the same bounded group-by, keyed by client and domain. */
module DnsWindows {
  import opened Machine
  import opened GroupBy

  const DNS_MAX_EVENTS: nat := 64

  datatype DnsKey = DnsKey(clientIp: string, domain: string)
  datatype DnsEvent = DnsEvent(key: DnsKey, count: u32)

  function Queries(offered: seq<DnsKey>): (s: seq<Item<DnsKey>>)
    ensures |s| == |offered|
  {
    seq(|offered|, i requires 0 <= i < |offered| => Item(offered[i], 0))
  }

  /** What the window must hold after these queries: 32-bit counts of the admitted keys. */
  function Events(offered: seq<DnsKey>, capacity: nat): (e: seq<DnsEvent>)
    ensures |e| == |Summary(Queries(offered), capacity)|
  {
    var s := Summary(Queries(offered), capacity);
    seq(|s|, i requires 0 <= i < |s| => DnsEvent(s[i].key, Wrap32(s[i].hits)))
  }

  predicate QueriesOverflowed(offered: seq<DnsKey>, capacity: nat) {
    GroupBy.Overflowed(Queries(offered), capacity)
  }

  class DnsWindow {
    const events: array<DnsEvent>
    var count: nat
    var overflowLogged: bool

    ghost var offered: seq<DnsKey>  // every query since the last reset

    ghost predicate Valid()
      reads this, events
    {
      0 < events.Length && count <= events.Length &&
      events[..count] == Events(offered, events.Length) &&
      overflowLogged == QueriesOverflowed(offered, events.Length)
    }

    constructor (capacity: nat)
      requires 0 < capacity
      ensures Valid() && fresh(events) && events.Length == capacity && offered == []
    {
      events := new DnsEvent[capacity](_ => DnsEvent(DnsKey("", ""), 0));
      count, overflowLogged := 0, false;
      offered := [];
    }

    method Reset()
      requires Valid()
      modifies this, events
      ensures Valid() && offered == []
    {
      count, overflowLogged := 0, false;
      offered := [];
    }

    method Add(clientIp: string, domain: string)
      requires Valid()
      modifies this, events
      ensures Valid() && offered == old(offered) + [DnsKey(clientIp, domain)]
    {
      ghost var live := events[..count];
      ghost var key := DnsKey(clientIp, domain);
      for i := 0 to count
        invariant events[..count] == live && Valid() && offered == old(offered)
        invariant forall j :: 0 <= j < i ==> live[j].key != key
      {
        assert events[i] == live[i];
        if events[i].key.clientIp == clientIp && events[i].key.domain == domain {
          Bump(i);
          return;
        }
      }
      Append(DnsKey(clientIp, domain));
    }

    /** A further query of a known key. */
    method Bump(i: nat)
      requires Valid() && i < count
      modifies this, events
      ensures Valid() && offered == old(offered) + [old(events[i].key)]
    {
      ghost var live, key := events[..count], events[i].key;
      assert events[i] == live[i];
      EventsSnocHit(offered, key, events.Length, i);
      events[i] := events[i].(count := Wrap32(events[i].count + 1));
      assert events[..count] == live[i := events[i]];
      offered := offered + [key];
    }

    /** The first query of an unknown key: a new entry, or overflow. */
    method Append(key: DnsKey)
      requires Valid() && forall j :: 0 <= j < count ==> events[j].key != key
      modifies this, events
      ensures Valid() && offered == old(offered) + [key]
    {
      ghost var live := events[..count];
      EventsSnocMiss(offered, key, events.Length);
      if count >= events.Length {
        if !overflowLogged {
          overflowLogged := true;
        }
      } else {
        events[count] := DnsEvent(key, 1);
        count := count + 1;
        assert events[..count] == live + [DnsEvent(key, 1)];
      }
      offered := offered + [key];
    }
  }

  // ----- How one query changes the specified contents -----

  lemma QueriesSnoc(offered: seq<DnsKey>, key: DnsKey)
    ensures Queries(offered + [key]) == Queries(offered) + [Item(key, 0)]
  {
  }

  lemma EventsSnocHit(offered: seq<DnsKey>, key: DnsKey, capacity: nat, at: nat)
    requires at < |Events(offered, capacity)| && Events(offered, capacity)[at].key == key
    ensures var e := Events(offered, capacity);
      Events(offered + [key], capacity) == e[at := DnsEvent(key, Wrap32(e[at].count + 1))]
    ensures QueriesOverflowed(offered + [key], capacity) == QueriesOverflowed(offered, capacity)
  {
    var h := Queries(offered);
    QueriesSnoc(offered, key);
    SnocHit(h, Item(key, 0), capacity, at);
    var s := Summary(h, capacity);
    assert Wrap32(Wrap32(s[at].hits) + 1) == Wrap32(s[at].hits + 1);
  }

  lemma EventsSnocMiss(offered: seq<DnsKey>, key: DnsKey, capacity: nat)
    requires forall i :: 0 <= i < |Events(offered, capacity)| ==> Events(offered, capacity)[i].key != key
    ensures var e := Events(offered, capacity);
      Events(offered + [key], capacity) == if |e| < capacity then e + [DnsEvent(key, 1)] else e
    ensures QueriesOverflowed(offered + [key], capacity) == (|Events(offered, capacity)| == capacity)
  {
    var h := Queries(offered);
    var a := Admitted(h, capacity);
    assert forall i :: 0 <= i < |a| ==> a[i] == Events(offered, capacity)[i].key;
    QueriesSnoc(offered, key);
    if |a| < capacity {
      SnocNew(h, Item(key, 0), capacity);
    } else {
      SnocDrop(h, Item(key, 0), capacity);
    }
  }
}
