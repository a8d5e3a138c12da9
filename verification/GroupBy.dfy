/** A capacity-bounded group-by over a stream of keyed, weighted items: the meaning of the flow
    table and of the DNS window. `Summary` says what such a table should hold; the three `Snoc`
    lemmas say how one more item changes it, which is what the tables' code does. */
module GroupBy {
  import opened Machine

  datatype Item<+K> = Item(key: K, weight: nat)
  datatype Tally<+K> = Tally(key: K, hits: nat, volume: nat)

  /** The distinct keys of the first `n` items, in order of first arrival. */
  function Firsts<K(==)>(h: seq<Item<K>>, n: nat): (f: seq<K>)
    requires n <= |h|
    ensures |f| <= n
  {
    if n == 0 then [] else Noted(Firsts(h, n - 1), h[n - 1].key)
  }

  function Noted<K(==)>(f: seq<K>, key: K): seq<K> {
    if key in f then f else f + [key]
  }

  /** How many of the first `n` items carry `key`, and their total weight. */
  function Hits<K(==)>(h: seq<Item<K>>, n: nat, key: K): nat
    requires n <= |h|
  {
    if n == 0 then 0 else Hits(h, n - 1, key) + (if h[n - 1].key == key then 1 else 0)
  }

  function Volume<K(==)>(h: seq<Item<K>>, n: nat, key: K): nat
    requires n <= |h|
  {
    if n == 0 then 0 else Volume(h, n - 1, key) + (if h[n - 1].key == key then h[n - 1].weight else 0)
  }

  /** The keys a table with room for `capacity` admits: the first ones to arrive. */
  function Admitted<K(==)>(h: seq<Item<K>>, capacity: nat): (a: seq<K>)
    ensures |a| <= capacity
  {
    var f := Firsts(h, |h|);
    f[..Min(capacity, |f|)]
  }

  /** What the table holds after offering `h`: for each admitted key, all of its items. */
  function Summary<K(==)>(h: seq<Item<K>>, capacity: nat): (s: seq<Tally<K>>)
    ensures |s| == |Admitted(h, capacity)|
  {
    var a := Admitted(h, capacity);
    seq(|a|, i requires 0 <= i < |a| => Tally(a[i], Hits(h, |h|, a[i]), Volume(h, |h|, a[i])))
  }

  /** Some item was turned away. */
  predicate Overflowed<K(==)>(h: seq<Item<K>>, capacity: nat) {
    |Firsts(h, |h|)| > capacity
  }

  // ----- Firsts lists each key once, and all of them -----

  ghost predicate Distinct<K>(f: seq<K>) {
    forall i, j :: 0 <= i < j < |f| ==> f[i] != f[j]
  }

  lemma {:induction false} FirstsDistinct<K>(h: seq<Item<K>>, n: nat)
    requires n <= |h|
    ensures Distinct(Firsts(h, n))
  {
    if n > 0 {
      FirstsDistinct(h, n - 1);
      var g, f := Firsts(h, n - 1), Firsts(h, n);
      assert f == Noted(g, h[n - 1].key);
      assert forall i :: 0 <= i < |g| ==> f[i] == g[i];
    }
  }

  lemma {:induction false} FirstsComplete<K>(h: seq<Item<K>>, n: nat, key: K)
    requires n <= |h|
    ensures key in Firsts(h, n) <==> exists i :: 0 <= i < n && h[i].key == key
    ensures key in Firsts(h, n) <==> Hits(h, n, key) > 0
    ensures key !in Firsts(h, n) ==> Volume(h, n, key) == 0
  {
    if n > 0 {
      FirstsComplete(h, n - 1, key);
      var f := Firsts(h, n - 1);
      assert key in Noted(f, h[n - 1].key) <==> key in f || h[n - 1].key == key;
    }
  }

  /** The keys among the first `n` items. */
  function Keys<K(==)>(h: seq<Item<K>>, n: nat): set<K>
    requires n <= |h|
  {
    set i | 0 <= i < n :: h[i].key
  }

  lemma {:induction false} FirstsCount<K>(h: seq<Item<K>>, n: nat)
    requires n <= |h|
    ensures |Firsts(h, n)| == |Keys(h, n)|
  {
    if n > 0 {
      FirstsCount(h, n - 1);
      var x, before := h[n - 1].key, Keys(h, n - 1);
      FirstsComplete(h, n - 1, x);
      assert Keys(h, n) == before + {x};
      assert x in before <==> x in Firsts(h, n - 1);
      assert x in before ==> before + {x} == before;
    } else {
      assert Keys(h, 0) == {};
    }
  }

  /** Items are turned away exactly when there are more keys than room; the table holds the others. */
  lemma OverflowMeansMany<K>(h: seq<Item<K>>, capacity: nat)
    ensures Overflowed(h, capacity) <==> |Keys(h, |h|)| > capacity
    ensures |Summary(h, capacity)| == Min(capacity, |Keys(h, |h|)|)
  {
    FirstsCount(h, |h|);
  }

  // ----- One more item -----

  lemma {:induction false} PrefixAgrees<K>(h: seq<Item<K>>, x: Item<K>, n: nat, key: K)
    requires n <= |h|
    ensures Firsts(h + [x], n) == Firsts(h, n)
    ensures Hits(h + [x], n, key) == Hits(h, n, key)
    ensures Volume(h + [x], n, key) == Volume(h, n, key)
  {
    if n > 0 {
      PrefixAgrees(h, x, n - 1, key);
      assert (h + [x])[n - 1] == h[n - 1];
    }
  }

  lemma Snoc<K>(h: seq<Item<K>>, x: Item<K>, key: K)
    ensures var h' := h + [x];
      Firsts(h', |h'|) == Noted(Firsts(h, |h|), x.key) &&
      Hits(h', |h'|, key) == Hits(h, |h|, key) + (if x.key == key then 1 else 0) &&
      Volume(h', |h'|, key) == Volume(h, |h|, key) + (if x.key == key then x.weight else 0)
  {
    PrefixAgrees(h, x, |h|, key);
    assert (h + [x])[|h|] == x;
  }

  /** The item's key is already in the table: only its own tally grows. */
  lemma SnocHit<K>(h: seq<Item<K>>, x: Item<K>, capacity: nat, at: nat)
    requires at < |Summary(h, capacity)| && Summary(h, capacity)[at].key == x.key
    ensures var s, s' := Summary(h, capacity), Summary(h + [x], capacity);
      s' == s[at := Tally(x.key, s[at].hits + 1, s[at].volume + x.weight)]
    ensures Overflowed(h + [x], capacity) <==> Overflowed(h, capacity)
  {
    var f, a := Firsts(h, |h|), Admitted(h, capacity);
    assert a[at] == x.key && f[at] == x.key;
    Snoc(h, x, x.key);
    FirstsDistinct(h, |h|);
    assert Admitted(h + [x], capacity) == a;
    forall i | 0 <= i < |a|
      ensures Summary(h + [x], capacity)[i]
           == Summary(h, capacity)[at := Tally(x.key, Hits(h, |h|, x.key) + 1, Volume(h, |h|, x.key) + x.weight)][i]
    {
      Snoc(h, x, a[i]);
      assert i != at ==> a[i] != a[at];
    }
  }

  /** A new key and there is room: a tally of one is appended. */
  lemma SnocNew<K>(h: seq<Item<K>>, x: Item<K>, capacity: nat)
    requires |Summary(h, capacity)| < capacity && x.key !in Admitted(h, capacity)
    ensures Summary(h + [x], capacity) == Summary(h, capacity) + [Tally(x.key, 1, x.weight)]
    ensures !Overflowed(h, capacity) && !Overflowed(h + [x], capacity)
  {
    var f, a := Firsts(h, |h|), Admitted(h, capacity);
    assert a == f;
    FirstsComplete(h, |h|, x.key);
    Snoc(h, x, x.key);
    var a' := Admitted(h + [x], capacity);
    assert a' == a + [x.key];
    forall i | 0 <= i < |a'|
      ensures Summary(h + [x], capacity)[i] == (Summary(h, capacity) + [Tally(x.key, 1, x.weight)])[i]
    {
      Snoc(h, x, a'[i]);
    }
  }

  /** A key the full table does not hold: nothing changes but the overflow mark. */
  lemma SnocDrop<K>(h: seq<Item<K>>, x: Item<K>, capacity: nat)
    requires |Summary(h, capacity)| == capacity && x.key !in Admitted(h, capacity)
    ensures Summary(h + [x], capacity) == Summary(h, capacity)
    ensures Overflowed(h + [x], capacity)
  {
    var f, a := Firsts(h, |h|), Admitted(h, capacity);
    Snoc(h, x, x.key);
    if x.key in f {
      assert |f| > capacity;
    }
    assert Admitted(h + [x], capacity) == a;
    forall i | 0 <= i < |a| ensures Summary(h + [x], capacity)[i] == Summary(h, capacity)[i] {
      Snoc(h, x, a[i]);
      assert a[i] != x.key;
    }
  }

  // ----- Whole-stream accounting -----

  /** Item `n` of the stream finds a full table without its key. */
  predicate Rejected<K(==)>(h: seq<Item<K>>, n: nat, capacity: nat)
    requires n < |h|
  {
    var a := Admitted(h[..n], capacity);
    |a| == capacity && h[n].key !in a
  }

  function RejectedCount<K(==)>(h: seq<Item<K>>, capacity: nat): nat
    decreases |h|
  {
    if |h| == 0 then 0
    else RejectedCount(h[..|h| - 1], capacity) + (if Rejected(h, |h| - 1, capacity) then 1 else 0)
  }

  function SumHits<K>(s: seq<Tally<K>>): nat {
    if |s| == 0 then 0 else SumHits(s[..|s| - 1]) + s[|s| - 1].hits
  }

  lemma {:induction false} SumHitsUpdate<K>(s: seq<Tally<K>>, at: nat, t: Tally<K>)
    requires at < |s|
    ensures SumHits(s[at := t]) == SumHits(s) - s[at].hits + t.hits
  {
    var last := |s| - 1;
    if at < last {
      SumHitsUpdate(s[..last], at, t);
      assert s[at := t][..last] == s[..last][at := t];
    } else {
      assert s[at := t][..last] == s[..last];
    }
  }

  lemma SumHitsSnoc<K>(s: seq<Tally<K>>, t: Tally<K>)
    ensures SumHits(s + [t]) == SumHits(s) + t.hits
  {
    assert (s + [t])[..|s|] == s;
  }

  /** Nothing is lost silently: tallied hits plus rejected items are all the items, and the
      overflow mark is set exactly when something was rejected. */
  lemma {:induction false} Accounting<K>(h: seq<Item<K>>, capacity: nat)
    ensures SumHits(Summary(h, capacity)) + RejectedCount(h, capacity) == |h|
    ensures Overflowed(h, capacity) <==> RejectedCount(h, capacity) > 0
    decreases |h|
  {
    if |h| > 0 {
      var front, x := h[..|h| - 1], h[|h| - 1];
      Accounting(front, capacity);
      AccountingStep(front, x, capacity);
      assert front + [x] == h;
    }
  }

  lemma AccountingStep<K>(h: seq<Item<K>>, x: Item<K>, capacity: nat)
    ensures var a := Admitted(h, capacity);
      var rejected := |a| == capacity && x.key !in a;
      SumHits(Summary(h + [x], capacity)) == SumHits(Summary(h, capacity)) + (if rejected then 0 else 1) &&
      (Overflowed(h + [x], capacity) <==> Overflowed(h, capacity) || rejected)
  {
    var a, s := Admitted(h, capacity), Summary(h, capacity);
    if x.key in a {
      var at :| 0 <= at < |a| && a[at] == x.key;
      SnocHit(h, x, capacity, at);
      SumHitsUpdate(s, at, Tally(x.key, s[at].hits + 1, s[at].volume + x.weight));
    } else if |a| < capacity {
      SnocNew(h, x, capacity);
      SumHitsSnoc(s, Tally(x.key, 1, x.weight));
    } else {
      SnocDrop(h, x, capacity);
    }
  }
}
