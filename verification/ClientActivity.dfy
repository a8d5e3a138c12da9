/** When each private address was last seen: a bounded least-recently-seen table, and the
    online marking of DHCP leases. */
module ClientActivity {
  import opened Machine
  import opened DottedQuads

  const CLIENT_ACTIVITY_MAX: nat := 256
  const CLIENT_ONLINE_WINDOW_SECONDS := 60

  datatype Seen = Seen(ip: string, lastSeen: int)

  /** The index of `ip`, or `|s|`. */
  function IndexOf(s: seq<Seen>, n: nat, ip: string): (i: nat)
    requires n <= |s|
    ensures i <= |s|
    ensures i < |s| ==> i >= n && s[i].ip == ip
    ensures forall j :: n <= j < i ==> s[j].ip != ip
    decreases |s| - n
  {
    if n == |s| || s[n].ip == ip then n else IndexOf(s, n + 1, ip)
  }

  /** The first entry with the smallest time among the first `n`. */
  function Oldest(s: seq<Seen>, n: nat): (i: nat)
    requires 0 < n <= |s|
    ensures i < n
    ensures forall j :: 0 <= j < n ==> s[i].lastSeen <= s[j].lastSeen
    ensures forall j :: 0 <= j < i ==> s[i].lastSeen < s[j].lastSeen
  {
    if n == 1 then 0
    else
      var o := Oldest(s, n - 1);
      if s[n - 1].lastSeen < s[o].lastSeen then n - 1 else o
  }

  /** The table after one sighting. */
  function Touched(s: seq<Seen>, ip: string, now: int, capacity: nat): (t: seq<Seen>)
    requires 0 < capacity && |s| <= capacity
    ensures |t| <= capacity
  {
    var i := IndexOf(s, 0, ip);
    if !IsPrivateIp(ip) then s
    else if i < |s| then s[i := Seen(ip, now)]
    else if |s| < capacity then s + [Seen(ip, now)]
    else s[Oldest(s, |s|) := Seen(ip, now)]
  }

  predicate Online(s: seq<Seen>, ip: string, now: int) {
    var i := IndexOf(s, 0, ip);
    i < |s| && now - s[i].lastSeen <= CLIENT_ONLINE_WINDOW_SECONDS
  }

  datatype ClientEntry = ClientEntry(ip: string, mac: string, name: string, online: bool)

  class Activity {
    const entries: array<Seen>
    var count: nat

    ghost predicate Valid()
      reads this
    {
      0 < entries.Length && count <= entries.Length
    }

    ghost function Table(): (s: seq<Seen>)
      requires Valid()
      reads this, entries
      ensures |s| == count
    {
      entries[..count]
    }

    constructor (capacity: nat)
      requires 0 < capacity
      ensures Valid() && fresh(entries) && entries.Length == capacity && Table() == []
    {
      entries := new Seen[capacity](_ => Seen("", 0));
      count := 0;
    }

    method Touch(ip: string, now: int)
      requires Valid()
      modifies this, entries
      ensures Valid() && Table() == Touched(old(Table()), ip, now, entries.Length)
    {
      ghost var s := Table();
      if ip == "" || !IsPrivateIp(ip) {
        return;
      }
      for i := 0 to count
        invariant Valid() && Table() == s
        invariant forall j :: 0 <= j < i ==> s[j].ip != ip
      {
        assert entries[i] == s[i];
        if entries[i].ip == ip {
          entries[i] := entries[i].(lastSeen := now);
          assert Table() == s[i := Seen(ip, now)];
          return;
        }
      }
      assert IndexOf(s, 0, ip) == |s|;
      if count < entries.Length {
        entries[count] := Seen(ip, now);
        count := count + 1;
        assert Table() == s + [Seen(ip, now)];
        return;
      }
      var oldest := 0;
      for i := 1 to count
        invariant oldest == Oldest(s, i) && Table() == s && count == |s|
      {
        assert entries[i] == s[i] && entries[oldest] == s[oldest];
        if entries[i].lastSeen < entries[oldest].lastSeen {
          oldest := i;
        }
      }
      entries[oldest] := Seen(ip, now);
      assert Table() == s[oldest := Seen(ip, now)];
    }

    method IsOnline(ip: string, now: int) returns (r: bool)
      requires Valid()
      ensures r == Online(Table(), ip, now)
    {
      ghost var s := Table();
      for i := 0 to count
        invariant forall j :: 0 <= j < i ==> s[j].ip != ip
      {
        assert entries[i] == s[i];
        if entries[i].ip == ip {
          return now - entries[i].lastSeen <= CLIENT_ONLINE_WINDOW_SECONDS;
        }
      }
      return false;
    }

    /** Marks the first `n` leases of the roster; nothing else about them changes. */
    method MarkOnline(roster: array<ClientEntry>, n: nat, now: int)
      requires Valid() && n <= roster.Length && roster as object != entries
      modifies roster
      ensures forall k :: 0 <= k < n ==>
        roster[k] == old(roster[k]).(online := Online(Table(), old(roster[k]).ip, now))
      ensures roster[n..] == old(roster[n..])
    {
      ghost var s := Table();
      for i := 0 to n
        invariant Table() == s
        invariant forall k :: 0 <= k < i ==> roster[k] == old(roster[k]).(online := Online(s, old(roster[k]).ip, now))
        invariant forall k :: i <= k < roster.Length ==> roster[k] == old(roster[k])
      {
        var online := IsOnline(roster[i].ip, now);
        roster[i] := roster[i].(online := online);
      }
    }
  }

  // ----- Histories of sightings -----

  /** The table after the first `n` sightings of `h`. */
  function Run(h: seq<Seen>, n: nat, capacity: nat): (s: seq<Seen>)
    requires 0 < capacity && n <= |h|
    ensures |s| <= capacity
  {
    if n == 0 then [] else Touched(Run(h, n - 1, capacity), h[n - 1].ip, h[n - 1].lastSeen, capacity)
  }

  /** When `ip` was last sighted. */
  function LastTouch(h: seq<Seen>, n: nat, ip: string): Option<int>
    requires n <= |h|
  {
    if n == 0 then None
    else if h[n - 1].ip == ip then Some(h[n - 1].lastSeen)
    else LastTouch(h, n - 1, ip)
  }

  predicate ClockOrdered(h: seq<Seen>) {
    forall i, j :: 0 <= i <= j < |h| ==> h[i].lastSeen <= h[j].lastSeen
  }

  ghost predicate DistinctPrivate(s: seq<Seen>) {
    (forall i, j :: 0 <= i < j < |s| ==> s[i].ip != s[j].ip) &&
    (forall i :: 0 <= i < |s| ==> IsPrivateIp(s[i].ip))
  }

  /** Every stored time is that address's true last sighting. */
  ghost predicate Truthful(s: seq<Seen>, h: seq<Seen>, n: nat)
    requires n <= |h|
  {
    forall i :: 0 <= i < |s| ==> LastTouch(h, n, s[i].ip) == Some(s[i].lastSeen)
  }

  /** `ip` was sighted but is not stored: the table is full of addresses sighted no earlier. */
  ghost predicate MissingIsOlder(s: seq<Seen>, h: seq<Seen>, n: nat, capacity: nat, ip: string)
    requires n <= |h|
  {
    var last := LastTouch(h, n, ip);
    last.Some? && IsPrivateIp(ip) && IndexOf(s, 0, ip) == |s| ==>
      |s| == capacity && forall i :: 0 <= i < |s| ==> last.value <= s[i].lastSeen
  }

  lemma {:induction false} LastTouchBounded(h: seq<Seen>, n: nat, m: nat, ip: string)
    requires n <= m < |h| && ClockOrdered(h)
    ensures LastTouch(h, n, ip).Some? ==> LastTouch(h, n, ip).value <= h[m].lastSeen
  {
    if n > 0 && h[n - 1].ip != ip {
      LastTouchBounded(h, n - 1, m, ip);
    }
  }

  lemma {:induction false} TableDistinct(h: seq<Seen>, n: nat, capacity: nat)
    requires 0 < capacity && n <= |h|
    ensures DistinctPrivate(Run(h, n, capacity))
  {
    if n > 0 {
      TableDistinct(h, n - 1, capacity);
      TouchKeepsDistinct(Run(h, n - 1, capacity), h[n - 1].ip, h[n - 1].lastSeen, capacity);
    }
  }

  lemma TouchKeepsDistinct(s: seq<Seen>, ip: string, now: int, capacity: nat)
    requires 0 < capacity && |s| <= capacity && DistinctPrivate(s)
    ensures DistinctPrivate(Touched(s, ip, now, capacity))
  {
  }

  lemma {:induction false} TableTruthful(h: seq<Seen>, n: nat, capacity: nat)
    requires 0 < capacity && n <= |h|
    ensures Truthful(Run(h, n, capacity), h, n)
  {
    if n > 0 {
      TableTruthful(h, n - 1, capacity);
      TableDistinct(h, n - 1, capacity);
      var s := Run(h, n - 1, capacity);
      var t := Touched(s, h[n - 1].ip, h[n - 1].lastSeen, capacity);
      assert Run(h, n, capacity) == t;
      TouchKeepsTruth(s, h, n, capacity);
    }
  }

  lemma TouchKeepsTruth(s: seq<Seen>, h: seq<Seen>, n: nat, capacity: nat)
    requires 0 < capacity && 0 < n <= |h| && |s| <= capacity
    requires DistinctPrivate(s) && Truthful(s, h, n - 1)
    ensures Truthful(Touched(s, h[n - 1].ip, h[n - 1].lastSeen, capacity), h, n)
  {
    var x := h[n - 1];
    var t := Touched(s, x.ip, x.lastSeen, capacity);
    forall i | 0 <= i < |t| ensures LastTouch(h, n, t[i].ip) == Some(t[i].lastSeen) {
      if t[i] != x {
        assert i < |s| && t[i] == s[i];
        assert s[i].ip != x.ip;
      }
    }
  }

  /** With a clock that never runs backwards, eviction only ever loses the least recent. */
  lemma {:induction false} MissingOlder(h: seq<Seen>, n: nat, capacity: nat, ip: string)
    requires 0 < capacity && n <= |h| && ClockOrdered(h)
    ensures MissingIsOlder(Run(h, n, capacity), h, n, capacity, ip)
  {
    if n > 0 {
      MissingOlder(h, n - 1, capacity, ip);
      TableTruthful(h, n - 1, capacity);
      var s := Run(h, n - 1, capacity);
      var t := Touched(s, h[n - 1].ip, h[n - 1].lastSeen, capacity);
      assert Run(h, n, capacity) == t;
      LastTouchBounded(h, n - 1, n - 1, ip);
      TouchKeepsMissing(s, h, n, capacity, ip);
    }
  }

  lemma TouchKeepsMissing(s: seq<Seen>, h: seq<Seen>, n: nat, capacity: nat, ip: string)
    requires 0 < capacity && 0 < n <= |h| && |s| <= capacity
    requires Truthful(s, h, n - 1) && MissingIsOlder(s, h, n - 1, capacity, ip)
    requires LastTouch(h, n - 1, ip).Some? ==> LastTouch(h, n - 1, ip).value <= h[n - 1].lastSeen
    ensures MissingIsOlder(Touched(s, h[n - 1].ip, h[n - 1].lastSeen, capacity), h, n, capacity, ip)
  {
    var x := h[n - 1];
    var t := Touched(s, x.ip, x.lastSeen, capacity);
    var i := IndexOf(s, 0, ip);
    var last := LastTouch(h, n, ip);
    if last.Some? && IsPrivateIp(ip) && IndexOf(t, 0, ip) == |t| {
      if x.ip == ip {
        TouchStores(s, ip, x.lastSeen, capacity);
        assert false;
      }
      if i < |s| {
        EvictedIsOldest(s, x, capacity, i);
      }
      forall k | 0 <= k < |t| ensures last.value <= t[k].lastSeen {
        if t[k] != x {
          assert t[k] == s[k];
        }
      }
    }
  }

  lemma TouchStores(s: seq<Seen>, ip: string, now: int, capacity: nat)
    requires 0 < capacity && |s| <= capacity && IsPrivateIp(ip)
    ensures var t := Touched(s, ip, now, capacity); IndexOf(t, 0, ip) < |t|
  {
    var t := Touched(s, ip, now, capacity);
    assert exists k :: 0 <= k < |t| && t[k].ip == ip by {
      var i := IndexOf(s, 0, ip);
      assert t[if i < |s| then i else if |s| < capacity then |s| else Oldest(s, |s|)].ip == ip;
    }
  }

  /** An address that drops out of the table was its least recently seen. */
  lemma EvictedIsOldest(s: seq<Seen>, x: Seen, capacity: nat, i: nat)
    requires 0 < capacity && |s| <= capacity && i < |s|
    requires var t := Touched(s, x.ip, x.lastSeen, capacity); IndexOf(t, 0, s[i].ip) == |t|
    ensures |s| == capacity && i == Oldest(s, |s|) && Touched(s, x.ip, x.lastSeen, capacity) == s[i := x]
  {
    var t := Touched(s, x.ip, x.lastSeen, capacity);
    assert |t| > i && t[i].ip != s[i].ip;
  }

  /** The roster never calls an address online that was not sighted within the window. */
  lemma OnlineIsTrue(h: seq<Seen>, n: nat, capacity: nat, ip: string, now: int)
    requires 0 < capacity && n <= |h|
    requires Online(Run(h, n, capacity), ip, now)
    ensures LastTouch(h, n, ip).Some? && now - LastTouch(h, n, ip).value <= CLIENT_ONLINE_WINDOW_SECONDS
  {
    TableTruthful(h, n, capacity);
  }

  /** And it wrongly calls a recently sighted private address offline only when the table is full
      of other private addresses, all different, all themselves sighted within the window. */
  lemma WrongOfflineMeansCrowded(h: seq<Seen>, n: nat, capacity: nat, ip: string, now: int)
      returns (others: seq<string>)
    requires 0 < capacity && n <= |h| && ClockOrdered(h)
    requires IsPrivateIp(ip) && LastTouch(h, n, ip).Some?
    requires now - LastTouch(h, n, ip).value <= CLIENT_ONLINE_WINDOW_SECONDS
    requires !Online(Run(h, n, capacity), ip, now)
    ensures |others| == capacity
    ensures forall i, j :: 0 <= i < j < |others| ==> others[i] != others[j]
    ensures forall i :: 0 <= i < |others| ==>
      others[i] != ip && IsPrivateIp(others[i]) && LastTouch(h, n, others[i]).Some? &&
      now - LastTouch(h, n, others[i]).value <= CLIENT_ONLINE_WINDOW_SECONDS
  {
    TableDistinct(h, n, capacity);
    TableTruthful(h, n, capacity);
    MissingOlder(h, n, capacity, ip);
    var s := Run(h, n, capacity);
    assert IndexOf(s, 0, ip) == |s|;
    others := seq(|s|, i requires 0 <= i < |s| => s[i].ip);
  }
}
