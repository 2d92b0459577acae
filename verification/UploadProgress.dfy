/**
 Upload progress: bytes are counted per time interval in a ring of buckets, each stamped with the
 interval (its generation) it was last used for. The query sums the buckets that are recent enough.
 */
module UploadProgress {
  import opened Basics

  datatype Bucket = Bucket(gen: nat, bytes: nat)

  /** One item of the stream: the generation in which it came and its length. */
  datatype Item = Item(gen: nat, len: nat)

  // What has been uploaded

  function BytesIn(items: seq<Item>, gen: int): nat {
    if items == [] then 0 else
    var last := items[|items| - 1];
    BytesIn(items[..|items| - 1], gen) + if last.gen == gen then last.len else 0
  }

  predicate Written(items: seq<Item>, gen: int) {
    exists i :: 0 <= i < |items| && items[i].gen == gen
  }

  function Total(items: seq<Item>): nat {
    if items == [] then 0 else Total(items[..|items| - 1]) + items[|items| - 1].len
  }

  /** Time does not run backwards. */
  predicate Ordered(items: seq<Item>, now: nat) {
    && (forall i, j :: 0 <= i < j < |items| ==> items[i].gen <= items[j].gen)
    && (forall i :: 0 <= i < |items| ==> items[i].gen <= now)
  }

  lemma {:induction false} UnwrittenIsEmpty(items: seq<Item>, gen: int)
    requires !Written(items, gen)
    ensures BytesIn(items, gen) == 0
  {
    if items != [] { UnwrittenIsEmpty(items[..|items| - 1], gen); }
  }

  // Sums over ranges

  function Sum(f: int -> nat, lo: int, hi: int): nat
    requires lo <= hi
    decreases hi - lo
  {
    if lo == hi then 0 else Sum(f, lo, hi - 1) + f(hi - 1)
  }

  lemma {:induction false} SumSplits(f: int -> nat, lo: int, mid: int, hi: int)
    requires lo <= mid <= hi
    ensures Sum(f, lo, hi) == Sum(f, lo, mid) + Sum(f, mid, hi)
    decreases hi - mid
  {
    if mid < hi { SumSplits(f, lo, mid, hi - 1); }
  }

  predicate Same(f: int -> nat, i: int, g: int -> nat, k: int) {
    f(i) == g(k)
  }

  ghost predicate Shifted(f: int -> nat, g: int -> nat, lo: int, hi: int, d: int) {
    forall i, k :: lo <= i < hi && k == i + d ==> Same(f, i, g, k)
  }

  lemma {:induction false} SumShifts(f: int -> nat, g: int -> nat, lo: int, hi: int, d: int)
    requires lo <= hi && Shifted(f, g, lo, hi, d)
    ensures Sum(f, lo, hi) == Sum(g, lo + d, hi + d)
    decreases hi - lo
  {
    if lo < hi {
      SumShifts(f, g, lo, hi - 1, d);
      assert Same(f, hi - 1, g, hi - 1 + d);
    }
  }

  ghost predicate Rotated(f: int -> nat, g: int -> nat, lo: int, n: nat)
    requires n > 0
  {
    forall i, k :: lo <= k < lo + n && i == k % n ==> Same(f, i, g, k)
  }

  lemma RotatedParts(f: int -> nat, g: int -> nat, lo: int, n: nat) returns (r: nat, base: int)
    requires n > 0 && Rotated(f, g, lo, n)
    ensures r < n && base + r == lo
    ensures Shifted(f, g, r, n, base) && Shifted(f, g, 0, r, base + n)
  {
    r, base := lo % n, lo - lo % n;
    forall i, k | r <= i < n && k == i + base ensures Same(f, i, g, k) { Remainder(base, lo, n, i); }
    forall i, k | 0 <= i < r && k == i + (base + n) ensures Same(f, i, g, k) { Remainder(base, lo, n, i); }
  }

  /** Summing a window of `n` consecutive numbers by their remainders is summing it in order. */
  lemma RingSum(f: int -> nat, g: int -> nat, lo: int, n: nat)
    requires n > 0 && Rotated(f, g, lo, n)
    ensures Sum(f, 0, n) == Sum(g, lo, lo + n)
  {
    var r, base := RotatedParts(f, g, lo, n);
    SumShifts(f, g, r, n, base);
    SumShifts(f, g, 0, r, base + n);
    SumSplits(f, 0, r, n);
    SumSplits(g, lo, base + n, lo + n);
  }

  lemma Remainder(base: int, lo: int, n: nat, i: nat)
    requires n > 0 && base == lo - lo % n && i < n
    ensures (i + base) % n == i && (i + (base + n)) % n == i
  {
    var q := lo / n;
    assert base == q * n;
    Multiples(q, n, i);
    Multiples(q + 1, n, i);
    assert (q + 1) * n == base + n;
  }

  lemma Multiples(q: int, n: nat, i: nat)
    requires i < n
    ensures (i + q * n) % n == i
  {
    var m := i + q * n;
    assert m == n * (m / n) + m % n;
    Unique(q, m / n, n, i, m % n);
  }

  lemma Product(d: int, n: nat)
    ensures d >= 1 ==> d * n >= n
    ensures d <= 0 ==> d * n <= 0
    ensures d <= -1 ==> d * n + n <= 0
  {
    if d <= -1 { assert d * n + n == (d + 1) * n; }
  }

  lemma Unique(q: int, q': int, n: nat, r: nat, r': nat)
    requires r < n && r' < n && r + q * n == n * q' + r'
    ensures r == r'
  {
    var d := q - q';
    assert d * n == r' - r;
    Product(d, n);
  }

  /** Different numbers with the same remainder are at least one round apart. */
  lemma RoundApart(a: int, b: int, n: nat)
    requires n > 0 && a % n == b % n && a < b
    ensures b - a >= n
  {
    assert a == n * (a / n) + a % n && b == n * (b / n) + b % n;
    var d := b / n - a / n;
    assert b - a == n * d;
    Product(d, n);
  }

  // The ring

  /** Bucket `i` is for the latest generation among those that share it, if one of them has been written. */
  predicate BucketOk(items: seq<Item>, n: nat, i: nat, b: Bucket)
    requires i < n
  {
    if b.gen % n == i && Written(items, b.gen) then
      && b.bytes == BytesIn(items, b.gen)
      && forall j :: 0 <= j < |items| && items[j].gen % n == i ==> items[j].gen <= b.gen
    else
      b == Bucket(0, 0) && forall j :: 0 <= j < |items| ==> items[j].gen % n != i
  }

  /** The ring after a whole upload. */
  predicate Ring(items: seq<Item>, buckets: seq<Bucket>) {
    forall i :: 0 <= i < |buckets| ==> BucketOk(items, |buckets|, i, buckets[i])
  }

  function Store(b: Bucket, item: Item): Bucket {
    if b.gen != item.gen then Bucket(item.gen, item.len) else Bucket(b.gen, b.bytes + item.len)
  }

  lemma {:induction false} WrittenMore(items: seq<Item>, item: Item, gen: int)
    ensures Written(items + [item], gen) <==> Written(items, gen) || item.gen == gen
    ensures BytesIn(items + [item], gen) == BytesIn(items, gen) + if item.gen == gen then item.len else 0
  {
    var more := items + [item];
    assert more[..|more| - 1] == items && more[|more| - 1] == item;
    if Written(items, gen) {
      var i :| 0 <= i < |items| && items[i].gen == gen;
      assert more[i].gen == gen;
    }
  }

  lemma OtherBucketStays(items: seq<Item>, item: Item, n: nat, i: nat, b: Bucket)
    requires i < n && BucketOk(items, n, i, b) && item.gen % n != i
    ensures BucketOk(items + [item], n, i, b)
  {
    WrittenMore(items, item, b.gen);
    var more := items + [item];
    assert forall j :: 0 <= j < |more| ==> more[j] == if j < |items| then items[j] else item;
  }

  lemma StoreKeeps(items: seq<Item>, item: Item, n: nat, i: nat, b: Bucket)
    requires i < n && BucketOk(items, n, i, b) && item.gen % n == i && Ordered(items, item.gen)
    ensures BucketOk(items + [item], n, i, Store(b, item))
  {
    WrittenMore(items, item, item.gen);
    var more := items + [item];
    assert forall j :: 0 <= j < |more| ==> more[j] == if j < |items| then items[j] else item;
    if !Written(items, item.gen) { UnwrittenIsEmpty(items, item.gen); }
  }

  lemma TotalMore(items: seq<Item>, item: Item)
    ensures Total(items + [item]) == Total(items) + item.len
  {
    assert (items + [item])[..|items|] == items;
  }

  // The query

  function MinGen(now: nat, n: nat): nat {
    if now < n then 0 else now - n
  }

  function Counted(buckets: seq<Bucket>, min: nat, i: int): nat {
    if 0 <= i < |buckets| && buckets[i].gen >= min then buckets[i].bytes else 0
  }

  function CountedIn(buckets: seq<Bucket>, min: nat): int -> nat {
    i => Counted(buckets, min, i)
  }

  function Bytes(items: seq<Item>): int -> nat {
    gen => BytesIn(items, gen)
  }

  /** The sum over the buckets that are recent enough. */
  function Windowed(buckets: seq<Bucket>, min: nat): nat {
    Sum(CountedIn(buckets, min), 0, |buckets|)
  }

  /** What the generation that has just dropped out of the window still adds. */
  function Leftover(items: seq<Item>, now: nat, n: nat): nat {
    if now >= n && !Written(items, now) then BytesIn(items, now - n) else 0
  }

  function InWindow(items: seq<Item>, now: nat, n: nat, gen: int): nat {
    BytesIn(items, gen) + if gen == now then Leftover(items, now, n) else 0
  }

  function WindowOf(items: seq<Item>, now: nat, n: nat): int -> nat {
    gen => InWindow(items, now, n, gen)
  }

  lemma BucketCounts(items: seq<Item>, buckets: seq<Bucket>, now: nat, gen: int)
    requires buckets != [] && Ring(items, buckets) && Ordered(items, now) && now - |buckets| < gen <= now
    ensures Counted(buckets, MinGen(now, |buckets|), gen % |buckets|) == InWindow(items, now, |buckets|, gen)
  {
    var n := |buckets|;
    var i := gen % n;
    var b := buckets[i];
    assert BucketOk(items, n, i, b);
    if !Written(items, gen) { UnwrittenIsEmpty(items, gen); }
    if !Written(items, now - n) { UnwrittenIsEmpty(items, now - n); }
    SameBucket(now, n, i);
    if b.gen % n == i && Written(items, b.gen) {
      if b.gen < gen { RoundApart(b.gen, gen, n); }
      if gen < b.gen { RoundApart(gen, b.gen, n); }
      if b.gen < gen { assert !Written(items, gen); }
    } else {
      assert !Written(items, gen);
    }
  }

  lemma SameBucket(now: int, n: nat, i: nat)
    requires n > 0 && i < n
    ensures now % n == i ==> (now - n) % n == i
  {
    var q := now / n;
    if now % n == i {
      assert now == n * q + i;
      assert now - n == i + (q - 1) * n;
      Multiples(q - 1, n, i);
    }
  }

  /**
   The query at generation `now` gives the bytes of the last `n` generations, and those of the one before
   them as well when it still has its bucket.
   */
  lemma WindowedIs(items: seq<Item>, buckets: seq<Bucket>, now: nat)
    requires buckets != [] && Ring(items, buckets) && Ordered(items, now)
    ensures Windowed(buckets, MinGen(now, |buckets|))
         == Sum(Bytes(items), now - |buckets| + 1, now + 1) + Leftover(items, now, |buckets|)
  {
    var n := |buckets|;
    var f, g := CountedIn(buckets, MinGen(now, n)), WindowOf(items, now, n);
    forall i, k | now - n + 1 <= k < now + 1 && i == k % n ensures Same(f, i, g, k) {
      BucketCounts(items, buckets, now, k);
    }
    RingSum(f, g, now - n + 1, n);
    SumShifts(g, Bytes(items), now - n + 1, now, 0);
  }

  /** The average is over the last `n` intervals, as documented, exactly if nothing is left over. */
  lemma WindowIsRightIff(items: seq<Item>, buckets: seq<Bucket>, now: nat)
    requires buckets != [] && Ring(items, buckets) && Ordered(items, now)
    ensures Windowed(buckets, MinGen(now, |buckets|)) == Sum(Bytes(items), now - |buckets| + 1, now + 1)
       <==> now < |buckets| || Written(items, now) || BytesIn(items, now - |buckets|) == 0
  {
    WindowedIs(items, buckets, now);
  }

  lemma OneItem(len: nat)
    ensures var items := [Item(0, len)];
      Written(items, 0) && BytesIn(items, 0) == len && BytesIn(items, 1) == 0 && Ordered(items, 1)
  {
    var items := [Item(0, len)];
    assert items[0].gen == 0 && items[..0] == [];
    assert BytesIn(items, 0) == BytesIn(items[..0], 0) + len && BytesIn(items, 1) == BytesIn(items[..0], 1) + 0;
  }

  /** One bucket, something in the first interval and nothing in the second, which is given the first one's bytes. */
  lemma LeftoverExample(len: nat)
    requires len > 0
    ensures Ring([Item(0, len)], [Bucket(0, len)]) && Ordered([Item(0, len)], 1)
    ensures Windowed([Bucket(0, len)], MinGen(1, 1)) == len && Sum(Bytes([Item(0, len)]), 1, 2) == 0
  {
    var items, buckets := [Item(0, len)], [Bucket(0, len)];
    OneItem(len);
    assert BucketOk(items, 1, 0, buckets[0]);
    SumOfOne(CountedIn(buckets, 0), 0);
    SumOfOne(Bytes(items), 1);
    assert CountedIn(buckets, 0)(0) == len && Bytes(items)(1) == 0;
  }

  lemma SumOfOne(f: int -> nat, lo: int)
    ensures Sum(f, lo, lo + 1) == f(lo)
  {
    assert Sum(f, lo, lo) == 0;
  }

  /** The counters behind the stream and its query; `items` is the history of what has passed. */
  class Progress {
    const interval: nat
    var total: nat
    const buckets: array<Bucket>
    ghost var items: seq<Item>

    ghost predicate Valid()
      reads this, buckets
    {
      interval > 0 && buckets.Length > 0 && total == Total(items) && Ring(items, buckets[..])
    }

    constructor (size: nat, interval: nat)
      requires size > 0 && interval > 0
      ensures Valid() && items == [] && buckets.Length == size && this.interval == interval && fresh(buckets)
    {
      this.interval, total, items := interval, 0, [];
      buckets := new Bucket[size](_ => Bucket(0, 0));
    }

    /** An item arrives `elapsed` milliseconds after the start; an error item has length 0. */
    method PollNext(elapsed: nat, len: nat)
      requires Valid() && Ordered(items, elapsed / interval)
      modifies this, buckets
      ensures Valid() && items == old(items) + [Item(elapsed / interval, len)]
      ensures total == old(total) + len
    {
      var gen := elapsed / interval;
      var index := gen % buckets.Length;
      ghost var item := Item(gen, len);
      ghost var was := buckets[..];
      if buckets[index].gen != gen {
        buckets[index] := Bucket(gen, len);
      } else {
        buckets[index] := Bucket(gen, buckets[index].bytes + len);
      }
      assert buckets[..] == was[index := Store(was[index], item)];
      total := total + len;
      StoreKeepsRing(items, item, was, buckets[..], index);
      TotalMore(items, item);
      items := items + [item];
    }

    /** The sum over the buckets that are not too old. */
    method RecentBytes(now: nat) returns (bytes: nat)
      requires Valid() && Ordered(items, now)
      ensures bytes == Sum(Bytes(items), now - buckets.Length + 1, now + 1) + Leftover(items, now, buckets.Length)
    {
      var min := if now >= buckets.Length then now - buckets.Length else 0;
      bytes := 0;
      for i := 0 to buckets.Length
        invariant bytes == Sum(CountedIn(buckets[..], min), 0, i)
      {
        if buckets[i].gen >= min { bytes := bytes + buckets[i].bytes; }
      }
      WindowedIs(items, buckets[..], now);
    }

    /** The average over the ring; there is none once the upload has been dropped. */
    method AverageBps(elapsed: nat, alive: bool) returns (bps: Option<real>)
      requires Valid() && Ordered(items, elapsed / interval)
      ensures bps.Some? <==> alive
      ensures alive ==>
        var now, n := elapsed / interval, buckets.Length;
        var bytes := Sum(Bytes(items), now - n + 1, now + 1) + Leftover(items, now, n);
        IsRate(bps.value, bytes, n, interval)
    {
      if !alive { return None; }
      var bytes := RecentBytes(elapsed / interval);
      bps := Some(PerSecond(bytes, buckets.Length, interval));
    }
  }

  /** At this rate per second, the bytes take `n` intervals of `interval` milliseconds. */
  ghost predicate IsRate(bps: real, bytes: nat, n: nat, interval: nat) {
    bps * n as real * interval as real == bytes as real * 1000.0
  }

  /** Bytes over `n` intervals of `interval` milliseconds, per second. */
  function PerSecond(bytes: nat, n: nat, interval: nat): (bps: real)
    requires n > 0 && interval > 0
    ensures IsRate(bps, bytes, n, interval)
  {
    Product(interval, n);
    var ms := (n * interval) as real;
    Quotient(bytes as real, n as real, interval as real, ms);
    bytes as real / ms * 1000.0
  }

  lemma Quotient(bytes: real, n: real, interval: real, ms: real)
    requires ms == n * interval && ms > 0.0
    ensures bytes / ms * 1000.0 * n * interval == bytes * 1000.0
  {
    var q := bytes / ms;
    assert q * ms == bytes;
    assert q * 1000.0 * n * interval == q * (n * interval) * 1000.0;
  }

  lemma StoreKeepsRing(items: seq<Item>, item: Item, was: seq<Bucket>, buckets: seq<Bucket>, index: nat)
    requires index < |was| && index == item.gen % |was| && Ring(items, was) && Ordered(items, item.gen)
    requires buckets == was[index := Store(was[index], item)]
    ensures Ring(items + [item], buckets)
  {
    forall i | 0 <= i < |buckets| ensures BucketOk(items + [item], |buckets|, i, buckets[i]) {
      assert BucketOk(items, |was|, i, was[i]);
      if i == index {
        StoreKeeps(items, item, |was|, i, was[i]);
      } else {
        OtherBucketStays(items, item, |was|, i, was[i]);
      }
    }
  }
}
