/** Aggregation through an intermediate timeframe is aggregation, volume is conserved, and every bar is the
    exact envelope of its rows. */
module AggregationProperties {
  import opened Market
  import opened Sorting
  import opened TimeframeAggregation

  // ---------- buckets ----------

  /** A candle is in the bucket whose span of whole minutes since the epoch its start lies in. */
  lemma BucketExactly(c: Candle, minutes: Positive, bucket: int)
    ensures var seconds := minutes * 60;
            Bucket(c, minutes) == bucket <==> seconds * bucket <= c.start < seconds * bucket + seconds
  {
    QuotientExactly(c.start, minutes * 60, bucket);
  }

  lemma QuotientExactly(x: int, d: Positive, q: int)
    ensures x / d == q <==> d * q <= x < d * q + d
  {
    if d * q <= x < d * q + d {
      QuotientIs(x, d, q, x - d * q);
    }
    assert x == d * (x / d) + x % d;
  }

  // ---------- coarser buckets ----------

  /** Same small bucket, same large bucket. */
  lemma BucketsNest(a: Candle, b: Candle, minutes: Positive, factor: Positive)
    requires Bucket(a, minutes) == Bucket(b, minutes)
    ensures Bucket(a, minutes * factor) == Bucket(b, minutes * factor)
  {
    var d := BucketSeconds(minutes);
    assert BucketSeconds(minutes * factor) == d * factor;
    QuotientOfQuotient(a.start, d, factor);
    QuotientOfQuotient(b.start, d, factor);
  }

  lemma QuotientOfQuotient(x: int, d: Positive, f: Positive)
    ensures d * f >= 1 && x / (d * f) == (x / d) / f
  {
    var q := x / d;
    NestedRest(d, f, q % f, x % d);
    QuotientIs(x, d * f, q / f, d * (q % f) + x % d);
  }

  lemma NestedRest(d: int, f: int, r: int, s: int)
    requires d >= 1 && f >= 1 && 0 <= r < f && 0 <= s < d
    ensures d * f >= 1 && 0 <= d * r + s < d * f
  {
    assert d * (f - 1 - r) >= 0;
    assert d * (f - 1 - r) == d * f - d - d * r;
  }

  lemma QuotientIs(x: int, d: Positive, q: int, r: int)
    requires x == d * q + r && 0 <= r < d
    ensures x / d == q
  {
    SameQuotient(d, x / d, x % d, q, r);
  }

  lemma SameQuotient(d: int, p: int, r: int, q: int, s: int)
    requires d * p + r == d * q + s && 0 <= r < d && 0 <= s < d
    ensures p == q
  {
    PositiveFactor(d, p - q + 1);
    PositiveFactor(d, q - p + 1);
  }

  lemma PositiveFactor(d: int, k: int)
    requires d > 0 && d * k > 0
    ensures k > 0
  {
  }

  // ---------- one pass over bars ----------

  /** Aggregating the bars of a finer timeframe gives the bars of the coarser one. */
  lemma {:induction false} BarsOfBars(candles: seq<Candle>, minutes: Positive, factor: Positive)
    ensures Bars(Bars(candles, minutes), minutes * factor) == Bars(candles, minutes * factor)
    decreases |candles|
  {
    hide Bars, Bucket, Join;
    if candles == [] {
      BarsOfNothing(minutes);
      BarsOfNothing(minutes * factor);
    } else {
      var c, rest := candles[0], candles[1..];
      assert candles == [c] + rest;
      BarsOfBars(rest, minutes, factor);
      BarsCons(c, rest, minutes);
      BarsCons(c, rest, minutes * factor);
      var fine := Bars(rest, minutes);
      if fine != [] && Bucket(fine[0], minutes) == Bucket(c, minutes) {
        JoinThenCoarsen(c, fine, minutes, factor);
      } else {
        BarsCons(c, fine, minutes * factor);
      }
    }
  }

  lemma BarsOfNothing(minutes: Positive)
    ensures Bars([], minutes) == []
  {
  }

  lemma JoinThenCoarsen(c: Candle, fine: seq<Candle>, minutes: Positive, factor: Positive)
    requires fine != [] && Bucket(fine[0], minutes) == Bucket(c, minutes)
    ensures Bars([Join(c, fine[0])] + fine[1..], minutes * factor)
            == var coarse := Bars(fine, minutes * factor);
               [Join(c, coarse[0])] + coarse[1..]
    ensures Bars(fine, minutes * factor) != []
    ensures Bucket(Bars(fine, minutes * factor)[0], minutes * factor) == Bucket(c, minutes * factor)
  {
    hide Bars;
    var first, rest := fine[0], fine[1..];
    assert fine == [first] + rest;
    BucketsNest(first, c, minutes, factor);
    BarsCons(first, rest, minutes * factor);
    BarsCons(Join(c, first), rest, minutes * factor);
    var coarse := Bars(rest, minutes * factor);
  }

  lemma SortIsIdentity(candles: seq<Candle>)
    requires forall i, j :: 0 <= i < j < |candles| ==> candles[i].start <= candles[j].start
    ensures SortByStart(candles) == candles
    decreases |candles|
  {
    hide Insert;
    if candles != [] {
      var earlier, last := candles[..|candles| - 1], candles[|candles| - 1];
      SortIsIdentity(earlier);
      InsertLast(last, earlier);
    }
  }

  lemma {:induction false} InsertLast(c: Candle, sorted: seq<Candle>)
    requires forall i :: 0 <= i < |sorted| ==> sorted[i].start <= c.start
    ensures Insert(c, sorted, Later) == sorted + [c]
    decreases |sorted|
  {
    if sorted != [] {
      InsertLast(c, sorted[1..]);
      assert sorted == [sorted[0]] + sorted[1..];
    }
  }

  lemma {:induction false} BarsAreOrdered(candles: seq<Candle>, minutes: Positive)
    ensures Ordered(Bars(SortByStart(candles), minutes))
  {
    hide Bars, InBucket, BarOf, Bucket, SortByStart;
    SortedOrdered(candles);
    var sorted := SortByStart(candles);
    BarsAreGroups(sorted, minutes);
    var bars := Bars(sorted, minutes);
    forall i, j | 0 <= i < j < |bars|
      ensures bars[i].start <= bars[j].start
    {
      if bars[j].start < bars[i].start {
        BucketMonotone(bars[j], bars[i], minutes);
      }
    }
  }

  /** Aggregation is a homomorphism: going through any finer timeframe whose length divides the coarser one
      gives exactly the bars of aggregating directly, times, prices, volumes and positions alike, for candles
      in any order. */
  lemma AggregationComposes(candles: seq<Candle>, minutes: Positive, factor: Positive)
    ensures Aggregate(Aggregate(candles, minutes), minutes * factor) == Aggregate(candles, minutes * factor)
  {
    hide Bars, SortByStart;
    BarsAreOrdered(candles, minutes);
    SortIsIdentity(Aggregate(candles, minutes));
    BarsOfBars(SortByStart(candles), minutes, factor);
  }

  /** The engine's own timeframes. */
  lemma HoursFromQuarters(candles: seq<Candle>)
    ensures Aggregate(Aggregate(candles, 15), 60) == Aggregate(candles, 60)
    ensures Aggregate(Aggregate(candles, 15), 240) == Aggregate(candles, 240)
    ensures Aggregate(Aggregate(candles, 60), 240) == Aggregate(candles, 240)
  {
    AggregationComposes(candles, 15, 4);
    AggregationComposes(candles, 15, 16);
    AggregationComposes(candles, 60, 4);
  }

  // ---------- conservation ----------

  function TotalVolume(candles: seq<Candle>): int {
    if candles == [] then 0 else candles[0].volume + TotalVolume(candles[1..])
  }

  function TotalTicks(candles: seq<Candle>): int {
    if candles == [] then 0 else candles[0].ticks + TotalTicks(candles[1..])
  }

  lemma {:induction false} TotalsOfInsert(c: Candle, sorted: seq<Candle>)
    ensures TotalVolume(Insert(c, sorted, Later)) == c.volume + TotalVolume(sorted)
    ensures TotalTicks(Insert(c, sorted, Later)) == c.ticks + TotalTicks(sorted)
    decreases |sorted|
  {
    if sorted != [] {
      TotalsOfInsert(c, sorted[1..]);
      assert ([c] + sorted)[1..] == sorted;
      assert ([sorted[0]] + Insert(c, sorted[1..], Later))[1..] == Insert(c, sorted[1..], Later);
    }
  }

  lemma {:induction false} TotalsOfLast(earlier: seq<Candle>, last: Candle)
    ensures TotalVolume(earlier + [last]) == TotalVolume(earlier) + last.volume
    ensures TotalTicks(earlier + [last]) == TotalTicks(earlier) + last.ticks
    decreases |earlier|
  {
    if earlier != [] {
      TotalsOfLast(earlier[1..], last);
      assert (earlier + [last])[1..] == earlier[1..] + [last];
    }
  }

  lemma {:induction false} TotalsOfSort(candles: seq<Candle>)
    ensures TotalVolume(SortByStart(candles)) == TotalVolume(candles)
    ensures TotalTicks(SortByStart(candles)) == TotalTicks(candles)
    decreases |candles|
  {
    hide Insert, TotalVolume, TotalTicks;
    if candles != [] {
      var earlier, last := candles[..|candles| - 1], candles[|candles| - 1];
      TotalsOfSort(earlier);
      TotalsOfInsert(last, SortByStart(earlier));
      TotalsOfLast(earlier, last);
      assert candles == earlier + [last];
    }
  }

  lemma TotalsCons(c: Candle, rest: seq<Candle>)
    ensures TotalVolume([c] + rest) == c.volume + TotalVolume(rest)
    ensures TotalTicks([c] + rest) == c.ticks + TotalTicks(rest)
  {
    assert ([c] + rest)[1..] == rest;
  }

  lemma {:induction false} TotalsOfBars(candles: seq<Candle>, minutes: Positive)
    ensures TotalVolume(Bars(candles, minutes)) == TotalVolume(candles)
    ensures TotalTicks(Bars(candles, minutes)) == TotalTicks(candles)
    decreases |candles|
  {
    hide Bars, Bucket, TotalVolume, TotalTicks;
    if candles == [] {
      BarsOfNothing(minutes);
    } else {
      var c, rest := candles[0], candles[1..];
      var bars := Bars(rest, minutes);
      assert candles == [c] + rest;
      TotalsOfBars(rest, minutes);
      BarsCons(c, rest, minutes);
      TotalsCons(c, rest);
      if bars != [] {
        assert bars == [bars[0]] + bars[1..];
        TotalsCons(bars[0], bars[1..]);
        TotalsCons(Join(c, bars[0]), bars[1..]);
      }
      TotalsCons(c, bars);
    }
  }

  /** No volume and no tick is lost or counted twice. */
  lemma VolumeIsConserved(candles: seq<Candle>, minutes: Positive)
    ensures TotalVolume(Aggregate(candles, minutes)) == TotalVolume(candles)
    ensures TotalTicks(Aggregate(candles, minutes)) == TotalTicks(candles)
  {
    hide Bars, SortByStart, TotalVolume, TotalTicks;
    TotalsOfBars(SortByStart(candles), minutes);
    TotalsOfSort(candles);
  }

  // ---------- the envelope ----------

  /** The bar of its rows: it opens with the first, closes with the last, its high and low are reached and never
      passed, and its volume is theirs. */
  ghost predicate IsEnvelope(bar: Candle, rows: seq<Candle>)
    requires rows != []
  {
    bar.start == rows[0].start && bar.open == rows[0].open
    && bar.end == rows[|rows| - 1].end && bar.close == rows[|rows| - 1].close
    && (forall i :: 0 <= i < |rows| ==> rows[i].high <= bar.high && bar.low <= rows[i].low)
    && (exists i :: 0 <= i < |rows| && rows[i].high == bar.high)
    && (exists i :: 0 <= i < |rows| && rows[i].low == bar.low)
    && bar.volume == TotalVolume(rows) && bar.ticks == TotalTicks(rows)
  }

  lemma {:induction false} BarIsEnvelope(rows: seq<Candle>)
    requires rows != []
    ensures IsEnvelope(BarOf(rows), rows)
    decreases |rows|
  {
    if |rows| == 1 {
      assert rows[1..] == [];
      assert rows[0] == BarOf(rows);
    } else {
      BarIsEnvelope(rows[1..]);
      assert rows == [rows[0]] + rows[1..];
    }
  }

  /** Every bar is the envelope of the candles of its bucket in time order, every candle is in the bucket of
      exactly one bar, and bars come in time order. */
  lemma BarsAreEnvelopes(candles: seq<Candle>, minutes: Positive)
    ensures forall i :: 0 <= i < |Aggregate(candles, minutes)| ==>
              var bar := Aggregate(candles, minutes)[i];
              var rows := SortByStart(InBucket(candles, Bucket(bar, minutes), minutes));
              rows != [] && IsEnvelope(bar, rows)
    ensures forall c :: c in candles ==>
              exists i :: 0 <= i < |Aggregate(candles, minutes)|
                          && Bucket(Aggregate(candles, minutes)[i], minutes) == Bucket(c, minutes)
    ensures forall i, j :: 0 <= i < j < |Aggregate(candles, minutes)| ==>
              Bucket(Aggregate(candles, minutes)[i], minutes) < Bucket(Aggregate(candles, minutes)[j], minutes)
  {
    hide Bars, InBucket, BarOf, Bucket, SortByStart, IsEnvelope;
    var sorted, bars := SortByStart(candles), Aggregate(candles, minutes);
    SortedOrdered(candles);
    BarsAreGroups(sorted, minutes);
    forall i | 0 <= i < |bars|
      ensures var rows := SortByStart(InBucket(candles, Bucket(bars[i], minutes), minutes));
              rows != [] && IsEnvelope(bars[i], rows)
    {
      SelectSorted(candles, Bucket(bars[i], minutes), minutes);
      BarIsEnvelope(InBucket(sorted, Bucket(bars[i], minutes), minutes));
    }
  }
}
