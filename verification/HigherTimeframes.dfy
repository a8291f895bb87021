/** The higher-timeframe windows of the full-system replay: a cursor over each timeframe's bars feeds a window
    of bounded length with the bars closed by now, so that no bar is seen before its last candle has ended. */
module HigherTimeframes {
  import opened Market
  import opened TimeframeAggregation
  import AggregationProperties

  const WINDOW_LENGTH := 160

  datatype Cursor = Cursor(index: nat, window: seq<Candle>)

  const START := Cursor(0, [])

  /** A bounded queue drops its oldest entry when it is full. */
  function Push(window: seq<Candle>, bar: Candle): seq<Candle> {
    var longer := window + [bar];
    if |longer| > WINDOW_LENGTH then longer[1..] else longer
  }

  function Advance(bars: seq<Candle>, cursor: Cursor, now: int): Cursor
    decreases |bars| - cursor.index
  {
    if cursor.index < |bars| && bars[cursor.index].end <= now then
      Advance(bars, Cursor(cursor.index + 1, Push(cursor.window, bars[cursor.index])), now)
    else cursor
  }

  function Follow(bars: seq<Candle>, times: seq<int>, n: nat): Cursor
    requires n <= |times|
    decreases n
  {
    if n == 0 then START else Advance(bars, Follow(bars, times, n - 1), times[n - 1])
  }

  class ReplayState {
    var index: nat
    var window: seq<Candle>

    constructor ()
      ensures Cursor(index, window) == START
    {
      index, window := 0, [];
    }

    method AdvanceHigherTimeframe(bars: seq<Candle>, now: int)
      modifies this
      ensures Cursor(index, window) == Advance(bars, old(Cursor(index, window)), now)
    {
      ghost var before := Cursor(index, window);
      while index < |bars| && bars[index].end <= now
        invariant Advance(bars, Cursor(index, window), now) == Advance(bars, before, now)
        decreases |bars| - index
      {
        window := Push(window, bars[index]);
        index := index + 1;
      }
    }
  }

  // ---------- the window ----------

  function TailFrom(index: nat): nat {
    if index <= WINDOW_LENGTH then 0 else index - WINDOW_LENGTH
  }

  /** The window holds the last bars before the cursor, in order. */
  predicate InStep(bars: seq<Candle>, cursor: Cursor) {
    cursor.index <= |bars| && cursor.window == bars[TailFrom(cursor.index)..cursor.index]
  }

  lemma PushKeepsStep(bars: seq<Candle>, cursor: Cursor)
    requires InStep(bars, cursor) && cursor.index < |bars|
    ensures InStep(bars, Cursor(cursor.index + 1, Push(cursor.window, bars[cursor.index])))
  {
    var from, k := TailFrom(cursor.index), cursor.index;
    assert cursor.window + [bars[k]] == bars[from..k + 1];
  }

  ghost predicate AllEnded(bars: seq<Candle>, n: nat, now: int)
    requires n <= |bars|
  {
    forall i :: 0 <= i < n ==> bars[i].end <= now
  }

  lemma {:induction false} AdvanceExact(bars: seq<Candle>, cursor: Cursor, now: int)
    requires InStep(bars, cursor)
    ensures var after := Advance(bars, cursor, now);
            InStep(bars, after) && cursor.index <= after.index
            && (forall i :: cursor.index <= i < after.index ==> bars[i].end <= now)
            && (after.index < |bars| ==> bars[after.index].end > now)
    decreases |bars| - cursor.index
  {
    hide InStep, Push;
    InStepIndex(bars, cursor);
    if cursor.index < |bars| && bars[cursor.index].end <= now {
      PushKeepsStep(bars, cursor);
      AdvanceExact(bars, Cursor(cursor.index + 1, Push(cursor.window, bars[cursor.index])), now);
    }
  }

  lemma InStepIndex(bars: seq<Candle>, cursor: Cursor)
    requires InStep(bars, cursor)
    ensures cursor.index <= |bars|
  {
  }

  /** The latest of the first n times. */
  function Latest(times: seq<int>, n: nat): (t: int)
    requires 1 <= n <= |times|
    ensures forall k :: 0 <= k < n ==> times[k] <= t
    decreases n
  {
    if n == 1 || times[n - 1] > Latest(times, n - 1) then
      times[n - 1]
    else Latest(times, n - 1)
  }

  ghost predicate EndsOrdered(bars: seq<Candle>) {
    forall i, j :: 0 <= i < j < |bars| ==> bars[i].end <= bars[j].end
  }

  /** Whatever the times, the window holds the last bars before the cursor and all of them have ended by the
      latest time seen; with bars in order of their end it holds exactly the latest that have. */
  lemma {:induction false} WindowIsPast(bars: seq<Candle>, times: seq<int>, n: nat)
    requires 1 <= n <= |times|
    ensures var cursor, now := Follow(bars, times, n), Latest(times, n);
            InStep(bars, cursor) && AllEnded(bars, cursor.index, now)
            && (EndsOrdered(bars) ==> forall i :: cursor.index <= i < |bars| ==> bars[i].end > now)
    decreases n
  {
    hide InStep, Advance;
    var before := if n == 1 then START else Follow(bars, times, n - 1);
    if n == 1 {
      StartInStep(bars);
    } else {
      WindowIsPast(bars, times, n - 1);
    }
    AdvanceExact(bars, before, times[n - 1]);
    InStepIndex(bars, Follow(bars, times, n));
  }

  /** The window is never longer than 160 bars, and shorter only while fewer have ended. */
  lemma WindowLength(bars: seq<Candle>, times: seq<int>, n: nat)
    requires 1 <= n <= |times|
    ensures var cursor := Follow(bars, times, n);
            |cursor.window| == if cursor.index < 160 then cursor.index else 160
  {
    hide Follow, Latest;
    WindowIsPast(bars, times, n);
  }

  lemma StartInStep(bars: seq<Candle>)
    ensures InStep(bars, START)
  {
  }

  // ---------- derived bars ----------

  /** Candles that start later do not end earlier. */
  ghost predicate EndsFollowStarts(candles: seq<Candle>) {
    forall c, d :: c in candles && d in candles && c.start <= d.start ==> c.end <= d.end
  }

  lemma LastRowEndsLast(candles: seq<Candle>, rows: seq<Candle>)
    requires EndsFollowStarts(candles) && Ordered(rows) && rows != [] && forall x :: x in rows ==> x in candles
    ensures forall x :: x in rows ==> x.end <= rows[|rows| - 1].end
  {
    var last := rows[|rows| - 1];
    assert last in rows;
    forall x | x in rows
      ensures x.end <= last.end
    {
      var i :| 0 <= i < |rows| && rows[i] == x;
    }
  }

  lemma RowsOf(candles: seq<Candle>, bucket: int, minutes: Positive)
    ensures var rows := SortByStart(InBucket(candles, bucket, minutes));
            Ordered(rows) && forall x :: x in rows <==> x in candles && Bucket(x, minutes) == bucket
  {
    hide InBucket, SortByStart, Bucket;
    InBucketMembers(candles, bucket, minutes);
    SortedOrdered(InBucket(candles, bucket, minutes));
  }

  /** The candle a derived bar ends with, the last of its bucket to end. */
  lemma LastCandle(candles: seq<Candle>, minutes: Positive, i: nat) returns (last: Candle)
    requires EndsFollowStarts(candles) && i < |Aggregate(candles, minutes)|
    ensures var bar := Aggregate(candles, minutes)[i];
            last in candles && Bucket(last, minutes) == Bucket(bar, minutes) && last.end == bar.end
            && forall c :: c in candles && Bucket(c, minutes) == Bucket(bar, minutes) ==> c.end <= bar.end
  {
    hide InBucket, SortByStart, Bucket, Aggregate, Ordered;
    var bar := Aggregate(candles, minutes)[i];
    var rows := SortByStart(InBucket(candles, Bucket(bar, minutes), minutes));
    AggregationProperties.BarsAreEnvelopes(candles, minutes);
    assert AggregationProperties.IsEnvelope(bar, rows);
    RowsOf(candles, Bucket(bar, minutes), minutes);
    LastRowEndsLast(candles, rows);
    last := rows[|rows| - 1];
    assert last in rows;
  }

  /** A derived bar becomes visible exactly when every candle it is made of has ended: building the bars from
      the whole series beforehand lets nothing of the future through. */
  lemma DerivedBarVisibleExactly(candles: seq<Candle>, minutes: Positive, i: nat, now: int)
    requires EndsFollowStarts(candles) && i < |Aggregate(candles, minutes)|
    ensures var bar := Aggregate(candles, minutes)[i];
            bar.end <= now
            <==> forall c :: c in candles && Bucket(c, minutes) == Bucket(bar, minutes) ==> c.end <= now
  {
    hide Bucket, Aggregate, EndsFollowStarts;
    var last := LastCandle(candles, minutes, i);
  }

  /** Derived bars come in order of their end, so the window holds exactly the latest of those that have ended. */
  lemma DerivedEndsOrdered(candles: seq<Candle>, minutes: Positive)
    requires EndsFollowStarts(candles)
    ensures EndsOrdered(Aggregate(candles, minutes))
  {
    hide Bucket, Bars, SortByStart;
    var bars := Aggregate(candles, minutes);
    forall i, j | 0 <= i < j < |bars|
      ensures bars[i].end <= bars[j].end
    {
      BarsRise(candles, minutes, i, j);
      var x := LastCandle(candles, minutes, i);
      var y := LastCandle(candles, minutes, j);
      if y.start < x.start {
        BucketMonotone(y, x, minutes);
      }
    }
  }

  lemma BarsRise(candles: seq<Candle>, minutes: Positive, i: nat, j: nat)
    requires i < j < |Aggregate(candles, minutes)|
    ensures Bucket(Aggregate(candles, minutes)[i], minutes) < Bucket(Aggregate(candles, minutes)[j], minutes)
  {
    hide Bucket, Aggregate;
    AggregationProperties.BarsAreEnvelopes(candles, minutes);
  }
}
