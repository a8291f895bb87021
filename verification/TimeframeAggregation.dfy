/** Higher timeframes derived from one-minute candles: candles are grouped by the bucket of their start time,
    each group is sorted and becomes one bar.  A bar's sequence number is its position. */
module TimeframeAggregation {
  import opened Common
  import opened Market
  import opened Sorting

  /** Times are whole seconds. */
  datatype Candle = Candle(start: int, end: int, open: real, high: real, low: real, close: real, volume: int,
                           ticks: int)

  function BucketSeconds(minutes: Positive): Positive {
    minutes * 60
  }

  function Bucket(c: Candle, minutes: Positive): int {
    c.start / BucketSeconds(minutes)
  }

  // ---------- sorting ----------

  predicate Later(c: Candle, d: Candle) {
    c.start > d.start
  }

  /** Equal starts keep their order. */
  function SortByStart(candles: seq<Candle>): seq<Candle> {
    Sort(candles, Later)
  }

  predicate Greater(k: int, l: int) {
    k > l
  }

  function SortKeys(keys: seq<int>): seq<int> {
    Sort(keys, Greater)
  }

  // ---------- bars ----------

  /** An earlier candle joined to the bar of what follows it. */
  function Join(c: Candle, bar: Candle): Candle {
    Candle(c.start, bar.end, c.open, Max(c.high, bar.high), Min(c.low, bar.low), bar.close, c.volume + bar.volume,
           c.ticks + bar.ticks)
  }

  /** The bar of a group of rows in time order. */
  function BarOf(rows: seq<Candle>): Candle
    requires rows != []
  {
    if |rows| == 1 then rows[0] else Join(rows[0], BarOf(rows[1..]))
  }

  /** One pass over candles in time order, joining neighbours of the same bucket. */
  function Bars(candles: seq<Candle>, minutes: Positive): seq<Candle> {
    if candles == [] then []
    else
      var c, rest := candles[0], Bars(candles[1..], minutes);
      if rest != [] && Bucket(rest[0], minutes) == Bucket(c, minutes) then [Join(c, rest[0])] + rest[1..]
      else [c] + rest
  }

  function Aggregate(candles: seq<Candle>, minutes: Positive): seq<Candle> {
    Bars(SortByStart(candles), minutes)
  }

  /** The candles of one bucket, in the order they come. */
  function InBucket(candles: seq<Candle>, bucket: int, minutes: Positive): seq<Candle> {
    if candles == [] then []
    else
      var rest, last := InBucket(candles[..|candles| - 1], bucket, minutes), candles[|candles| - 1];
      if Bucket(last, minutes) == bucket then rest + [last] else rest
  }

  // ---------- the loops ----------

  /** The dictionary of groups, with its keys in the order they were first seen. */
  method Group(candles: seq<Candle>, minutes: Positive) returns (grouped: map<int, seq<Candle>>, seen: seq<int>)
    ensures forall b :: b in grouped <==> b in seen
    ensures forall b :: b in grouped ==> grouped[b] == InBucket(candles, b, minutes) != []
    ensures forall b :: b !in grouped ==> InBucket(candles, b, minutes) == []
    ensures forall i, j :: 0 <= i < j < |seen| ==> seen[i] != seen[j]
  {
    hide Bucket;
    grouped, seen := map[], [];
    for i := 0 to |candles|
      invariant forall b :: b in grouped <==> b in seen
      invariant forall b :: b in grouped ==> grouped[b] == InBucket(candles[..i], b, minutes) != []
      invariant forall b :: b !in grouped ==> InBucket(candles[..i], b, minutes) == []
      invariant forall j, k :: 0 <= j < k < |seen| ==> seen[j] != seen[k]
    {
      assert candles[..i + 1][..i] == candles[..i];
      var b := Bucket(candles[i], minutes);
      if b in grouped {
        grouped := grouped[b := grouped[b] + [candles[i]]];
      } else {
        grouped := grouped[b := [candles[i]]];
        seen := seen + [b];
      }
    }
    assert candles[..|candles|] == candles;
  }

  method BuildBar(rows: seq<Candle>) returns (bar: Candle)
    requires rows != []
    ensures bar == BarOf(rows)
  {
    var n := |rows| - 1;
    var high, low, volume, ticks := rows[n].high, rows[n].low, rows[n].volume, rows[n].ticks;
    var i := n;
    assert rows[n..] == [rows[n]];
    while i > 0
      invariant 0 <= i <= n
      invariant BarOf(rows[i..]) == Candle(rows[i].start, rows[n].end, rows[i].open, high, low, rows[n].close, volume,
                                           ticks)
    {
      i := i - 1;
      assert rows[i..][1..] == rows[i + 1..];
      high, low := Max(rows[i].high, high), Min(rows[i].low, low);
      volume, ticks := rows[i].volume + volume, rows[i].ticks + ticks;
    }
    assert rows[0..] == rows;
    bar := Candle(rows[0].start, rows[n].end, rows[0].open, high, low, rows[n].close, volume, ticks);
  }

  method AggregateTimeframe(candles: seq<Candle>, minutes: Positive) returns (aggregated: seq<Candle>)
    ensures aggregated == Aggregate(candles, minutes)
  {
    hide InBucket, Bars, BarOf, SortByStart, SortKeys, Aggregate, Bucket;
    var grouped, seen := Group(candles, minutes);
    var keys := SortKeys(seen);
    KeysSorted(seen);
    aggregated := [];
    for i := 0 to |keys|
      invariant |aggregated| == i
      invariant forall j :: 0 <= j < i ==> GroupBar(candles, keys[j], minutes) == Some(aggregated[j])
    {
      assert keys[i] in keys;
      var rows := SortByStart(grouped[keys[i]]);
      SortedLength(grouped[keys[i]]);
      var bar := BuildBar(rows);
      aggregated := aggregated + [bar];
    }
    GroupsAreBars(candles, minutes, keys, aggregated);

  }

  // ---------- sorted grouping and the single pass agree ----------

  ghost predicate Ordered(candles: seq<Candle>) {
    forall i, j :: 0 <= i < j < |candles| ==> candles[i].start <= candles[j].start
  }

  ghost predicate Rising(keys: seq<int>) {
    forall i, j :: 0 <= i < j < |keys| ==> keys[i] < keys[j]
  }

  /** The bar the dictionary of groups gives for a bucket. */
  function GroupBar(candles: seq<Candle>, bucket: int, minutes: Positive): Option<Candle> {
    var rows := SortByStart(InBucket(candles, bucket, minutes));
    if rows == [] then None else Some(BarOf(rows))
  }

  lemma {:induction false} InsertKeeps(c: Candle, sorted: seq<Candle>)
    requires Ordered(sorted)
    ensures Ordered(Insert(c, sorted, Later))
    decreases |sorted|
  {
    if sorted != [] && sorted[0].start <= c.start {
      InsertKeeps(c, sorted[1..]);
      InsertMembers(c, sorted[1..], Later);
      forall j | 0 <= j < |Insert(c, sorted[1..], Later)|
        ensures Insert(c, sorted[1..], Later)[j].start >= sorted[0].start
      {
        assert Insert(c, sorted[1..], Later)[j] in Insert(c, sorted[1..], Later);
      }
    }
  }

  lemma {:induction false} SortedOrdered(candles: seq<Candle>)
    ensures Ordered(SortByStart(candles)) && |SortByStart(candles)| == |candles|
    ensures forall x :: x in SortByStart(candles) <==> x in candles
    decreases |candles|
  {
    hide Insert;
    if candles != [] {
      var earlier, last := candles[..|candles| - 1], candles[|candles| - 1];
      SortedOrdered(earlier);
      InsertKeeps(last, SortByStart(earlier));
    }
    SortMembers(candles, Later);
  }

  lemma SortedLength(candles: seq<Candle>)
    ensures |SortByStart(candles)| == |candles|
  {
    SortedOrdered(candles);
  }

  lemma {:induction false} InsertKeyKeeps(k: int, sorted: seq<int>)
    requires Rising(sorted) && k !in sorted
    ensures Rising(Insert(k, sorted, Greater))
    decreases |sorted|
  {
    if sorted != [] && sorted[0] <= k {
      InsertKeyKeeps(k, sorted[1..]);
      InsertMembers(k, sorted[1..], Greater);
      forall j | 0 <= j < |Insert(k, sorted[1..], Greater)|
        ensures Insert(k, sorted[1..], Greater)[j] > sorted[0]
      {
        assert Insert(k, sorted[1..], Greater)[j] in Insert(k, sorted[1..], Greater);
      }
    }
  }

  lemma {:induction false} KeysSorted(keys: seq<int>)
    requires forall i, j :: 0 <= i < j < |keys| ==> keys[i] != keys[j]
    ensures Rising(SortKeys(keys)) && forall x :: x in SortKeys(keys) <==> x in keys
    decreases |keys|
  {
    hide Insert;
    if keys != [] {
      var earlier, last := keys[..|keys| - 1], keys[|keys| - 1];
      KeysSorted(earlier);
      SortMembers(earlier, Greater);
      InsertKeyKeeps(last, SortKeys(earlier));
    }
    SortMembers(keys, Greater);
  }

  lemma {:induction false} InBucketConcat(a: seq<Candle>, b: seq<Candle>, bucket: int, minutes: Positive)
    ensures InBucket(a + b, bucket, minutes) == InBucket(a, bucket, minutes) + InBucket(b, bucket, minutes)
    decreases |b|
  {
    hide Bucket;
    if b == [] {
      assert a + b == a;
    } else {
      InBucketConcat(a, b[..|b| - 1], bucket, minutes);
      assert (a + b)[..|a + b| - 1] == a + b[..|b| - 1];
    }
  }

  lemma InBucketCons(c: Candle, rest: seq<Candle>, bucket: int, minutes: Positive)
    ensures InBucket([c] + rest, bucket, minutes)
            == (if Bucket(c, minutes) == bucket then [c] else []) + InBucket(rest, bucket, minutes)
  {
    InBucketConcat([c], rest, bucket, minutes);
    assert [c][..0] == [];
  }

  lemma {:induction false} InBucketMembers(candles: seq<Candle>, bucket: int, minutes: Positive)
    ensures forall x :: x in InBucket(candles, bucket, minutes) <==> x in candles && Bucket(x, minutes) == bucket
    decreases |candles|
  {
    hide Bucket;
    if candles != [] {
      var earlier := candles[..|candles| - 1];
      InBucketMembers(earlier, bucket, minutes);
      assert candles == earlier + [candles[|candles| - 1]];
    }
  }

  /** Selecting a bucket and inserting in time order commute. */
  lemma {:induction false} SelectInserted(c: Candle, sorted: seq<Candle>, bucket: int, minutes: Positive)
    requires Ordered(sorted)
    ensures InBucket(Insert(c, sorted, Later), bucket, minutes)
            == if Bucket(c, minutes) == bucket then Insert(c, InBucket(sorted, bucket, minutes), Later)
               else InBucket(sorted, bucket, minutes)
    decreases |sorted|
  {
    hide Bucket, InBucket;
    if sorted == [] {
      EmptyBucket(bucket, minutes);
      InBucketCons(c, [], bucket, minutes);
      assert [c] + [] == [c];
    } else {
      var first, rest := sorted[0], sorted[1..];
      assert sorted == [first] + rest;
      InBucketCons(first, rest, bucket, minutes);
      if first.start > c.start {
        InBucketCons(c, sorted, bucket, minutes);
        LaterStays(c, sorted, bucket, minutes);
      } else {
        SelectInserted(c, rest, bucket, minutes);
        InBucketCons(first, Insert(c, rest, Later), bucket, minutes);
        var chosen := InBucket(rest, bucket, minutes);
        assert [] + chosen == chosen && [] + Insert(c, chosen, Later) == Insert(c, chosen, Later);
        assert Insert(c, sorted, Later) == [first] + Insert(c, rest, Later);
      }
    }
  }

  lemma EmptyBucket(bucket: int, minutes: Positive)
    ensures InBucket([], bucket, minutes) == []
  {
  }

  lemma LaterStays(c: Candle, sorted: seq<Candle>, bucket: int, minutes: Positive)
    requires Ordered(sorted) && sorted != [] && sorted[0].start > c.start
    ensures Insert(c, InBucket(sorted, bucket, minutes), Later) == [c] + InBucket(sorted, bucket, minutes)
  {
    hide Bucket, InBucket;
    InBucketMembers(sorted, bucket, minutes);
    var chosen := InBucket(sorted, bucket, minutes);
    if chosen != [] {
      assert chosen[0] in sorted;
      var i :| 0 <= i < |sorted| && sorted[i] == chosen[0];
    }
  }

  lemma {:induction false} SelectSorted(candles: seq<Candle>, bucket: int, minutes: Positive)
    ensures InBucket(SortByStart(candles), bucket, minutes) == SortByStart(InBucket(candles, bucket, minutes))
    decreases |candles|
  {
    hide Bucket, Insert;
    if candles != [] {
      var earlier, last := candles[..|candles| - 1], candles[|candles| - 1];
      SelectSorted(earlier, bucket, minutes);
      SortedOrdered(earlier);
      SelectInserted(last, SortByStart(earlier), bucket, minutes);
      var chosen := InBucket(earlier, bucket, minutes);
      assert (chosen + [last])[..|chosen + [last]| - 1] == chosen;
    }
  }

  lemma BucketMonotone(a: Candle, b: Candle, minutes: Positive)
    requires a.start <= b.start
    ensures Bucket(a, minutes) <= Bucket(b, minutes)
  {
    QuotientMonotone(a.start, b.start, BucketSeconds(minutes));
  }

  lemma QuotientMonotone(x: int, y: int, d: Positive)
    requires x <= y
    ensures x / d <= y / d
  {
    var p, q := x / d, y / d;
    assert d * p <= x && y < d * q + d;
    assert d * (q - p + 1) > 0;
  }

  ghost predicate EachIsGroup(bars: seq<Candle>, sorted: seq<Candle>, minutes: Positive) {
    forall i :: 0 <= i < |bars| ==>
      var rows := InBucket(sorted, Bucket(bars[i], minutes), minutes);
      rows != [] && bars[i] == BarOf(rows)
  }

  ghost predicate BucketsRise(bars: seq<Candle>, minutes: Positive) {
    forall i, j :: 0 <= i < j < |bars| ==> Bucket(bars[i], minutes) < Bucket(bars[j], minutes)
  }

  ghost predicate Covers(bars: seq<Candle>, sorted: seq<Candle>, minutes: Positive) {
    forall c :: c in sorted ==> exists i :: 0 <= i < |bars| && Bucket(bars[i], minutes) == Bucket(c, minutes)
  }

  /** What one pass makes of candles in time order: bars of rising buckets, each the bar of its bucket's rows. */
  ghost predicate AreGroups(bars: seq<Candle>, sorted: seq<Candle>, minutes: Positive) {
    EachIsGroup(bars, sorted, minutes) && BucketsRise(bars, minutes) && Covers(bars, sorted, minutes)
  }

  lemma {:induction false} BarsAreGroups(sorted: seq<Candle>, minutes: Positive)
    requires Ordered(sorted)
    ensures AreGroups(Bars(sorted, minutes), sorted, minutes)
    decreases |sorted|
  {
    hide Bucket, BarOf, InBucket, AreGroups;
    if sorted == [] {
      NoGroups(minutes);
    } else {
      var c, rest := sorted[0], sorted[1..];
      BarsAreGroups(rest, minutes);
      assert sorted == [c] + rest;
      ConsGroups(c, rest, minutes);
    }
  }

  lemma NoGroups(minutes: Positive)
    ensures AreGroups([], [], minutes)
  {
  }

  lemma ConsGroups(c: Candle, rest: seq<Candle>, minutes: Positive)
    requires Ordered([c] + rest) && AreGroups(Bars(rest, minutes), rest, minutes)
    ensures AreGroups(Bars([c] + rest, minutes), [c] + rest, minutes)
  {
    hide Bucket, BarOf, InBucket, Bars, AreGroups;
    var bars := Bars(rest, minutes);
    BarsCons(c, rest, minutes);
    if bars != [] && Bucket(bars[0], minutes) == Bucket(c, minutes) {
      JoinedGroups(c, rest, bars, minutes);
    } else {
      NewGroup(c, rest, bars, minutes);
    }
  }

  lemma BarsCons(c: Candle, rest: seq<Candle>, minutes: Positive)
    ensures Bars([c] + rest, minutes)
            == var bars := Bars(rest, minutes);
               if bars != [] && Bucket(bars[0], minutes) == Bucket(c, minutes) then [Join(c, bars[0])] + bars[1..]
               else [c] + bars
    ensures Bars(rest, minutes) != [] <==> rest != []
    ensures rest != [] ==> Bars(rest, minutes)[0].start == rest[0].start
  {
    hide Bucket;
    assert ([c] + rest)[1..] == rest;
  }

  lemma BarOfCons(c: Candle, rows: seq<Candle>)
    requires rows != []
    ensures BarOf([c] + rows) == Join(c, BarOf(rows))
  {
    assert ([c] + rows)[1..] == rows;
  }

  lemma JoinedGroups(c: Candle, rest: seq<Candle>, bars: seq<Candle>, minutes: Positive)
    requires AreGroups(bars, rest, minutes) && bars != [] && Bucket(bars[0], minutes) == Bucket(c, minutes)
    ensures AreGroups([Join(c, bars[0])] + bars[1..], [c] + rest, minutes)
  {
    hide BarOf, InBucket;
    var joined := [Join(c, bars[0])] + bars[1..];
    assert Bucket(joined[0], minutes) == Bucket(c, minutes);
    BarOfCons(c, InBucket(rest, Bucket(c, minutes), minutes));
    forall i | 0 <= i < |joined|
      ensures Bucket(joined[i], minutes) == Bucket(bars[i], minutes)
      ensures var rows := InBucket([c] + rest, Bucket(joined[i], minutes), minutes);
              rows != [] && joined[i] == BarOf(rows)
    {
      var rows := InBucket(rest, Bucket(bars[i], minutes), minutes);
      InBucketCons(c, rest, Bucket(bars[i], minutes), minutes);
      assert [] + rows == rows;
    }
  }

  lemma NewGroup(c: Candle, rest: seq<Candle>, bars: seq<Candle>, minutes: Positive)
    requires Ordered([c] + rest) && AreGroups(bars, rest, minutes)
    requires bars == [] || (rest != [] && bars[0].start == rest[0].start && Bucket(bars[0], minutes) != Bucket(c, minutes))
    ensures AreGroups([c] + bars, [c] + rest, minutes)
  {
    hide EachIsGroup, BucketsRise, Covers;
    BarsComeLater(c, rest, bars, minutes);
    Covered(c, rest, bars, minutes);
    NewGroupMatches(c, rest, bars, minutes);
  }

  lemma NewGroupMatches(c: Candle, rest: seq<Candle>, bars: seq<Candle>, minutes: Positive)
    requires AreGroups(bars, rest, minutes)
    requires forall i :: 0 <= i < |bars| ==> Bucket(bars[i], minutes) > Bucket(c, minutes)
    ensures EachIsGroup([c] + bars, [c] + rest, minutes)
  {
    hide BarOf, InBucket, Bucket;
    var longer, b := [c] + bars, Bucket(c, minutes);
    forall i | 0 <= i < |bars|
      ensures longer[i + 1] == bars[i]
      ensures InBucket([c] + rest, Bucket(bars[i], minutes), minutes)
              == InBucket(rest, Bucket(bars[i], minutes), minutes)
    {
      RowsUnchanged(c, rest, Bucket(bars[i], minutes), minutes);
    }
    InBucketCons(c, rest, b, minutes);
    NoneLeft(rest, bars, b, minutes);
    assert [c] + [] == [c];
    BarOfOne(c);
  }

  lemma BarsComeLater(c: Candle, rest: seq<Candle>, bars: seq<Candle>, minutes: Positive)
    requires Ordered([c] + rest) && AreGroups(bars, rest, minutes)
    requires bars == [] || (rest != [] && bars[0].start == rest[0].start && Bucket(bars[0], minutes) != Bucket(c, minutes))
    ensures forall i :: 0 <= i < |bars| ==> Bucket(bars[i], minutes) > Bucket(c, minutes)
    ensures BucketsRise([c] + bars, minutes)
  {
    hide BarOf, InBucket, Bucket;
    if bars != [] {
      assert ([c] + rest)[0] == c && ([c] + rest)[1] == rest[0];
      BucketMonotone(c, bars[0], minutes);
    }
  }

  lemma RowsUnchanged(c: Candle, rest: seq<Candle>, b: int, minutes: Positive)
    requires Bucket(c, minutes) != b
    ensures InBucket([c] + rest, b, minutes) == InBucket(rest, b, minutes)
  {
    hide InBucket, Bucket;
    InBucketCons(c, rest, b, minutes);
    assert [] + InBucket(rest, b, minutes) == InBucket(rest, b, minutes);
  }

  lemma Covered(c: Candle, rest: seq<Candle>, bars: seq<Candle>, minutes: Positive)
    requires AreGroups(bars, rest, minutes)
    ensures Covers([c] + bars, [c] + rest, minutes)
  {
    hide BarOf, InBucket, Bucket;
    var longer := [c] + bars;
    forall x | x in [c] + rest
      ensures exists i :: 0 <= i < |longer| && Bucket(longer[i], minutes) == Bucket(x, minutes)
    {
      if x in rest {
        var i :| 0 <= i < |bars| && Bucket(bars[i], minutes) == Bucket(x, minutes);
        assert longer[i + 1] == bars[i];
      } else {
        assert longer[0] == c;
      }
    }
  }

  lemma BarOfOne(c: Candle)
    ensures BarOf([c]) == c
  {
  }

  lemma NoneLeft(rest: seq<Candle>, bars: seq<Candle>, b: int, minutes: Positive)
    requires AreGroups(bars, rest, minutes) && forall i :: 0 <= i < |bars| ==> Bucket(bars[i], minutes) > b
    ensures InBucket(rest, b, minutes) == []
  {
    hide BarOf, InBucket, Bucket;
    var chosen := InBucket(rest, b, minutes);
    assert |chosen| > 0 ==> chosen[0] in chosen;
    InBucketMembers(rest, b, minutes);
  }

  /** Two rising sequences of the same keys are the same sequence. */
  lemma {:induction false} RisingUnique(a: seq<int>, b: seq<int>)
    requires Rising(a) && Rising(b) && forall x :: x in a <==> x in b
    ensures a == b
    decreases |a|
  {
    assert (|a| > 0 ==> a[0] in a) && (|b| > 0 ==> b[0] in b);
    if a != [] {
      LastIsLargest(a);
      LastIsLargest(b);
      RisingUnique(a[..|a| - 1], b[..|b| - 1]);
    }
  }

  lemma LastIsLargest(a: seq<int>)
    requires Rising(a) && a != []
    ensures var n := |a| - 1;
            a == a[..n] + [a[n]] && a[n] in a && Rising(a[..n])
            && (forall x :: x in a ==> x <= a[n])
            && forall x :: x in a[..n] <==> x in a && x != a[n]
  {
    var n := |a| - 1;
    assert a == a[..n] + [a[n]];
  }

  function Buckets(bars: seq<Candle>, minutes: Positive): (keys: seq<int>)
    ensures |keys| == |bars| && forall i :: 0 <= i < |bars| ==> keys[i] == Bucket(bars[i], minutes)
  {
    seq(|bars|, i requires 0 <= i < |bars| => Bucket(bars[i], minutes))
  }

  lemma KeysAreBuckets(candles: seq<Candle>, minutes: Positive, keys: seq<int>)
    requires Rising(keys)
    requires forall b :: b in keys <==> InBucket(candles, b, minutes) != []
    ensures keys == Buckets(Aggregate(candles, minutes), minutes)
  {
    hide Bucket, BarOf, InBucket, Bars, SortByStart, Buckets;
    var sorted := SortByStart(candles);
    var bars := Bars(sorted, minutes);
    SortedOrdered(candles);
    BarsAreGroups(sorted, minutes);
    var buckets := Buckets(bars, minutes);
    forall b
      ensures b in keys <==> b in buckets
    {
      SelectSorted(candles, b, minutes);
      SortedOrdered(InBucket(candles, b, minutes));
      InBucketMembers(sorted, b, minutes);
      if b in keys {
        var x := InBucket(sorted, b, minutes)[0];
        assert x in InBucket(sorted, b, minutes);
        assert x in sorted;
        var i :| 0 <= i < |bars| && Bucket(bars[i], minutes) == Bucket(x, minutes);
        assert buckets[i] == b;
      }
    }
    RisingUnique(keys, buckets);
  }

  lemma GroupsAreBars(candles: seq<Candle>, minutes: Positive, keys: seq<int>, aggregated: seq<Candle>)
    requires Rising(keys) && |aggregated| == |keys|
    requires forall b :: b in keys <==> InBucket(candles, b, minutes) != []
    requires forall j :: 0 <= j < |keys| ==> GroupBar(candles, keys[j], minutes) == Some(aggregated[j])
    ensures aggregated == Aggregate(candles, minutes)
  {
    hide Bucket, BarOf, InBucket, Bars, SortByStart, Buckets;
    KeysAreBuckets(candles, minutes, keys);
    SortedOrdered(candles);
    BarsAreGroups(SortByStart(candles), minutes);
    var bars := Aggregate(candles, minutes);
    forall j | 0 <= j < |bars|
      ensures aggregated[j] == bars[j]
    {
      SelectSorted(candles, keys[j], minutes);
    }
  }
}
