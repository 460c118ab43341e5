/** The offline bar builder: sorts stored bars by start time and merges those of one target window. */
module DataAggregator {
  import opened Wrappers
  import opened BarWindow
  import opened BarSummary
  import opened MinuteBarCollector

  datatype ChartInterval =
    | Ticks | Minute1 | Minute5 | Minute10 | Minute30 | Minute60 | Hour1 | Day | Week | Month

  /** Minutes of a target interval; 0 for an interval the aggregator does not serve. */
  function IntervalMinutes(interval: ChartInterval): nat {
    match interval
    case Minute1 => 1
    case Minute5 => 5
    case Minute10 => 10
    case Minute30 => 30
    case Minute60 => 60
    case Day => DAY_MINUTES
    case _ => 0
  }

  datatype AggregatedData = AggregatedData(
    stockCode: string, interval: ChartInterval, startTime: Time, endTime: Time,
    ohlcv: Ohlcv, vwap: Option<real>, typicalPrice: real, barCount: nat)

  // ---- Stable sort by start time ----

  function Insert(sorted: seq<Bar>, bar: Bar): seq<Bar> {
    var n := |sorted|;
    if n == 0 || sorted[n - 1].startTime <= bar.startTime then sorted + [bar]
    else Insert(sorted[..n - 1], bar) + [sorted[n - 1]]
  }

  function Sorted(bars: seq<Bar>): seq<Bar> {
    if bars == [] then [] else Insert(Sorted(bars[..|bars| - 1]), bars[|bars| - 1])
  }

  ghost predicate ByStart(bars: seq<Bar>) {
    forall i, j :: 0 <= i < j < |bars| ==> bars[i].startTime <= bars[j].startTime
  }

  ghost predicate DistinctStarts(bars: seq<Bar>) {
    forall i, j :: 0 <= i < j < |bars| ==> bars[i].startTime != bars[j].startTime
  }

  lemma {:induction false} InsertPermutes(sorted: seq<Bar>, bar: Bar)
    ensures multiset(Insert(sorted, bar)) == multiset(sorted) + multiset{bar}
    ensures |Insert(sorted, bar)| == |sorted| + 1
    ensures forall b :: b in Insert(sorted, bar) ==> b == bar || b in sorted
  {
    var n := |sorted|;
    if n > 0 && sorted[n - 1].startTime > bar.startTime {
      InsertPermutes(sorted[..n - 1], bar);
      assert sorted == sorted[..n - 1] + [sorted[n - 1]];
    }
  }

  lemma {:induction false} InsertSorts(sorted: seq<Bar>, bar: Bar)
    requires ByStart(sorted)
    ensures ByStart(Insert(sorted, bar))
  {
    var n := |sorted|;
    if n > 0 && sorted[n - 1].startTime > bar.startTime {
      var front, last := sorted[..n - 1], sorted[n - 1];
      InsertSorts(front, bar);
      InsertPermutes(front, bar);
      var inner := Insert(front, bar);
      forall i | 0 <= i < |inner|
        ensures inner[i].startTime <= last.startTime
      {
        assert inner[i] in inner;
      }
    }
  }

  /** Sorting yields an ordered permutation. */
  lemma {:induction false} SortedSorts(bars: seq<Bar>)
    ensures ByStart(Sorted(bars))
    ensures multiset(Sorted(bars)) == multiset(bars)
    ensures |Sorted(bars)| == |bars|
  {
    if bars != [] {
      var n := |bars| - 1;
      SortedSorts(bars[..n]);
      InsertSorts(Sorted(bars[..n]), bars[n]);
      InsertPermutes(Sorted(bars[..n]), bars[n]);
      assert bars == bars[..n] + [bars[n]];
    }
  }

  lemma {:induction false} SortedFixed(bars: seq<Bar>)
    requires ByStart(bars)
    ensures Sorted(bars) == bars
  {
    if bars != [] {
      SortedFixed(bars[..|bars| - 1]);
    }
  }

  /** Two ordered arrangements of the same bars with distinct start times are the same sequence. */
  lemma {:induction false} OrderedUnique(a: seq<Bar>, b: seq<Bar>)
    requires ByStart(a) && ByStart(b) && DistinctStarts(a)
    requires multiset(a) == multiset(b)
    ensures a == b
  {
    hide ByStart, DistinctStarts;
    assert |a| == |multiset(a)| == |multiset(b)| == |b|;
    if a != [] {
      LastAgree(a, b);
      var n := |a| - 1;
      DropLast(a);
      DropLast(b);
      StillOrdered(a);
      StillOrdered(b);
      OrderedUnique(a[..n], b[..n]);
      assert a == a[..n] + [a[n]] && b == b[..n] + [b[n]];
    }
  }

  lemma DropLast<T>(s: seq<T>)
    requires s != []
    ensures multiset(s[..|s| - 1]) == multiset(s) - multiset{s[|s| - 1]}
  {
    assert s == s[..|s| - 1] + [s[|s| - 1]];
  }

  lemma StillOrdered(s: seq<Bar>)
    requires s != [] && ByStart(s)
    ensures ByStart(s[..|s| - 1])
    ensures DistinctStarts(s) ==> DistinctStarts(s[..|s| - 1])
  {
  }

  lemma LastAgree(a: seq<Bar>, b: seq<Bar>)
    requires ByStart(a) && ByStart(b) && DistinctStarts(a)
    requires multiset(a) == multiset(b) && a != [] && |a| == |b|
    ensures a[|a| - 1] == b[|a| - 1]
  {
    var n := |a| - 1;
    assert a[n] in multiset(b) && b[n] in multiset(a);
    var i :| 0 <= i < |a| && a[i] == b[n];
    var j :| 0 <= j < |b| && b[j] == a[n];
    assert a[i].startTime <= a[n].startTime == b[j].startTime <= b[n].startTime == a[i].startTime;
  }

  /** The bars with the given start time, in order. */
  function StartingAt(bars: seq<Bar>, start: Time): seq<Bar> {
    if bars == [] then []
    else
      var n := |bars| - 1;
      var earlier := StartingAt(bars[..n], start);
      if bars[n].startTime == start then earlier + [bars[n]] else earlier
  }

  lemma {:induction false} InsertStable(sorted: seq<Bar>, bar: Bar, start: Time)
    ensures StartingAt(Insert(sorted, bar), start) ==
            StartingAt(sorted, start) + if bar.startTime == start then [bar] else []
  {
    var n := |sorted|;
    if n > 0 && sorted[n - 1].startTime > bar.startTime {
      var inner := Insert(sorted[..n - 1], bar);
      InsertStable(sorted[..n - 1], bar, start);
      assert (inner + [sorted[n - 1]])[..|inner|] == inner;
    } else {
      assert (sorted + [bar])[..n] == sorted;
    }
  }

  /** Bars that start together stay in the order given. */
  lemma {:induction false} SortedStable(bars: seq<Bar>, start: Time)
    ensures StartingAt(Sorted(bars), start) == StartingAt(bars, start)
  {
    if bars != [] {
      var n := |bars| - 1;
      SortedStable(bars[..n], start);
      InsertStable(Sorted(bars[..n]), bars[n], start);
    }
  }

  // ---- Groups of one window ----

  type Group = bars: seq<Bar> | bars != [] witness [Bar(Slot("", 1), 0, MINUTE, Single(0.0, 0), 1)]

  /** Groups already made, extended by one more bar: it joins the last group or opens a new one. */
  function PushBar(chunks: seq<Group>, x: Bar, minutes: nat): seq<Group>
    requires minutes > 0
  {
    var m := |chunks|;
    if m > 0 && WindowStart(chunks[m - 1][0].startTime, minutes) == WindowStart(x.startTime, minutes)
    then chunks[..m - 1] + [chunks[m - 1] + [x]]
    else chunks + [[x]]
  }

  /** Maximal stretches of consecutive bars that start in the same window. */
  function Chunks(bars: seq<Bar>, minutes: nat): seq<Group>
    requires minutes > 0
  {
    if bars == [] then [] else PushBar(Chunks(bars[..|bars| - 1], minutes), bars[|bars| - 1], minutes)
  }

  function Flatten(chunks: seq<Group>): seq<Bar> {
    if chunks == [] then [] else Flatten(chunks[..|chunks| - 1]) + chunks[|chunks| - 1]
  }

  /** The groups partition the bars: in order, none lost, none repeated, each inside one window. */
  lemma {:induction false} ChunksPartition(bars: seq<Bar>, minutes: nat)
    requires minutes > 0
    ensures Flatten(Chunks(bars, minutes)) == bars
    ensures forall i :: 0 <= i < |Chunks(bars, minutes)| ==> OneWindow(Chunks(bars, minutes)[i], minutes)
  {
    hide WindowStart;
    if bars != [] {
      var n := |bars| - 1;
      ChunksPartition(bars[..n], minutes);
      PushBarPartition(Chunks(bars[..n], minutes), bars[n], minutes);
      assert bars == bars[..n] + [bars[n]];
    }
  }

  ghost predicate OneWindow(group: Group, minutes: nat)
    requires minutes > 0
  {
    forall i :: 0 <= i < |group| ==> WindowStart(group[i].startTime, minutes) == WindowStart(group[0].startTime, minutes)
  }

  lemma PushBarPartition(chunks: seq<Group>, x: Bar, minutes: nat)
    requires minutes > 0
    requires forall i :: 0 <= i < |chunks| ==> OneWindow(chunks[i], minutes)
    ensures Flatten(PushBar(chunks, x, minutes)) == Flatten(chunks) + [x]
    ensures forall i :: 0 <= i < |PushBar(chunks, x, minutes)| ==> OneWindow(PushBar(chunks, x, minutes)[i], minutes)
  {
    hide WindowStart;
    var m := |chunks|;
    var grown := PushBar(chunks, x, minutes);
    if m > 0 && WindowStart(chunks[m - 1][0].startTime, minutes) == WindowStart(x.startTime, minutes) {
      assert grown[..m - 1] == chunks[..m - 1];
      assert OneWindow(grown[m - 1], minutes);
    } else {
      assert grown[..m] == chunks;
    }
  }

  function Highest(bars: seq<Bar>): real
    requires bars != []
  {
    var n := |bars| - 1;
    if n == 0 then bars[0].ohlcv.high else Max(Highest(bars[..n]), bars[n].ohlcv.high)
  }

  function Lowest(bars: seq<Bar>): real
    requires bars != []
  {
    var n := |bars| - 1;
    if n == 0 then bars[0].ohlcv.low else Min(Lowest(bars[..n]), bars[n].ohlcv.low)
  }

  function WeightedSum(bars: seq<Bar>): real {
    if bars == [] then 0.0
    else
      var b := bars[|bars| - 1].ohlcv;
      WeightedSum(bars[..|bars| - 1]) + b.close * b.volume as real
  }

  function AggregateGroup(group: Group, interval: ChartInterval): AggregatedData
  {
    SortedSorts(group);
    var bars := Sorted(group);
    var first, last := bars[0], bars[|bars| - 1];
    var high, low, volume := Highest(bars), Lowest(bars), TotalVolume(bars);
    AggregatedData(
      first.slot.stockCode, interval, first.startTime, last.endTime,
      Ohlcv(first.ohlcv.open, high, low, last.ohlcv.close, volume),
      if volume > 0 then Some(WeightedSum(bars) / volume as real) else None,
      (high + low + last.ohlcv.close) / 3.0,
      |bars|)
  }

  function AggregateAll(chunks: seq<Group>, interval: ChartInterval): seq<AggregatedData>
  {
    seq(|chunks|, i requires 0 <= i < |chunks| => AggregateGroup(chunks[i], interval))
  }

  lemma AggregateAllPush(chunks: seq<Group>, group: Group, interval: ChartInterval)
    ensures AggregateAll(chunks + [group], interval) == AggregateAll(chunks, interval) + [AggregateGroup(group, interval)]
  {
  }

  /** The value of an aggregation: one result for each group of the sorted bars. */
  function Aggregated(bars: seq<Bar>, target: ChartInterval): seq<AggregatedData> {
    var minutes := IntervalMinutes(target);
    if minutes == 0 then [] else AggregateAll(Chunks(Sorted(bars), minutes), target)
  }

  /** Where the loop stands after some sorted bars: all groups but the last are aggregated, the last is open. */
  ghost predicate Standing(seen: seq<Bar>, minutes: nat, closed: seq<Group>, group: seq<Bar>)
    requires minutes > 0
  {
    if seen == [] then closed == [] && group == []
    else group != [] && Chunks(seen, minutes) == closed + [group]
  }

  lemma StandingStep(seen: seq<Bar>, x: Bar, minutes: nat, closed: seq<Group>, group: seq<Bar>)
    requires minutes > 0 && Standing(seen, minutes, closed, group)
    ensures group == [] ==> Standing(seen + [x], minutes, closed, [x])
    ensures group != [] && WindowStart(group[0].startTime, minutes) == WindowStart(x.startTime, minutes) ==>
        Standing(seen + [x], minutes, closed, group + [x])
    ensures group != [] && WindowStart(group[0].startTime, minutes) != WindowStart(x.startTime, minutes) ==>
        Standing(seen + [x], minutes, closed + [group], [x])
  {
    assert (seen + [x])[..|seen|] == seen;
    if group != [] {
      assert (closed + [group])[..|closed|] == closed;
    }
  }

  /** The one-pass loop over the sorted bars, with one open group. */
  method AggregateBars(bars: seq<Bar>, target: ChartInterval) returns (aggregated: seq<AggregatedData>)
    ensures aggregated == Aggregated(bars, target)
  {
    aggregated := [];
    var minutes := IntervalMinutes(target);
    if bars == [] || minutes == 0 {
      return;
    }
    var currentGroup: seq<Bar> := [];
    var currentWindowStart: Option<Time> := None;
    var sorted := Sorted(bars);
    ghost var closed: seq<Group> := [];
    for i := 0 to |sorted|
      invariant currentWindowStart ==
          if currentGroup == [] then None else Some(WindowStart(currentGroup[0].startTime, minutes))
      invariant Standing(sorted[..i], minutes, closed, currentGroup)
      invariant aggregated == AggregateAll(closed, target)
    {
      var bar := sorted[i];
      var windowStart := WindowStart(bar.startTime, minutes);
      assert sorted[..i + 1] == sorted[..i] + [bar];
      StandingStep(sorted[..i], bar, minutes, closed, currentGroup);
      if currentWindowStart == None {
        currentWindowStart, currentGroup := Some(windowStart), [bar];
      } else if Some(windowStart) == currentWindowStart {
        currentGroup := currentGroup + [bar];
      } else {
        if currentGroup != [] {
          AggregateAllPush(closed, currentGroup, target);
          aggregated := aggregated + [AggregateGroup(currentGroup, target)];
        }
        closed := closed + [currentGroup];
        currentWindowStart, currentGroup := Some(windowStart), [bar];
      }
    }
    assert sorted[..|sorted|] == sorted;
    SortedSorts(bars);
    if currentGroup != [] {
      AggregateAllPush(closed, currentGroup, target);
      aggregated := aggregated + [AggregateGroup(currentGroup, target)];
    }
  }

  // ---- What the groups amount to ----

  function JoinAll(bars: seq<Bar>): Ohlcv
    requires bars != []
  {
    var n := |bars| - 1;
    if n == 0 then bars[0].ohlcv else Join(JoinAll(bars[..n]), bars[n].ohlcv)
  }

  lemma {:induction false} JoinAllFields(bars: seq<Bar>)
    requires bars != []
    ensures JoinAll(bars) ==
            Ohlcv(bars[0].ohlcv.open, Highest(bars), Lowest(bars), bars[|bars| - 1].ohlcv.close, TotalVolume(bars))
  {
    var n := |bars| - 1;
    if n > 0 {
      JoinAllFields(bars[..n]);
    } else {
      assert bars[..0] == [];
    }
  }

  function Coarser(minutes: nat): int -> int
    requires minutes > 0
  {
    start => if start >= 0 then WindowStart(start, minutes) else start
  }

  function KeyedChunks(chunks: seq<Group>, minutes: nat): seq<Keyed>
    requires minutes > 0
  {
    seq(|chunks|, i requires 0 <= i < |chunks| => Keyed(WindowStart(chunks[i][0].startTime, minutes), JoinAll(chunks[i])))
  }

  lemma {:induction false} ChunksAreRuns(bars: seq<Bar>, minutes: nat)
    requires minutes > 0
    ensures KeyedChunks(Chunks(bars, minutes), minutes) == Runs(Recode(KeyedBars(bars), Coarser(minutes)))
  {
    if bars != [] {
      var n := |bars| - 1;
      var x := bars[n];
      ChunksAreRuns(bars[..n], minutes);
      KeyedBarsPush(bars[..n], x);
      assert bars == bars[..n] + [x];
      RecodePush(KeyedBars(bars[..n]), Keyed(x.startTime, x.ohlcv), Coarser(minutes));
      RunsPush(Recode(KeyedBars(bars[..n]), Coarser(minutes)), Keyed(WindowStart(x.startTime, minutes), x.ohlcv));
      ChunkPush(Chunks(bars[..n], minutes), x, minutes);
    }
  }

  lemma ChunkPush(chunks: seq<Group>, x: Bar, minutes: nat)
    requires minutes > 0
    ensures KeyedChunks(PushBar(chunks, x, minutes), minutes) ==
            Push(KeyedChunks(chunks, minutes), Keyed(WindowStart(x.startTime, minutes), x.ohlcv))
  {
    var m := |chunks|;
    if m > 0 && WindowStart(chunks[m - 1][0].startTime, minutes) == WindowStart(x.startTime, minutes) {
      var grown := chunks[m - 1] + [x];
      assert grown[..|grown| - 1] == chunks[m - 1];
    }
  }

  /** An aggregation seen as summaries labelled by the window each result starts in. */
  function Summaries(results: seq<AggregatedData>, minutes: nat): seq<Keyed>
    requires minutes > 0
  {
    seq(|results|, i requires 0 <= i < |results| => Keyed(WindowStart(results[i].startTime, minutes), results[i].ohlcv))
  }

  /** Each group of sorted bars is itself sorted. */
  lemma {:induction false} ChunksSorted(bars: seq<Bar>, minutes: nat, c: nat)
    requires minutes > 0 && ByStart(bars)
    requires c < |Chunks(bars, minutes)|
    ensures ByStart(Chunks(bars, minutes)[c])
    ensures forall i :: 0 <= i < |Chunks(bars, minutes)[c]| ==> Chunks(bars, minutes)[c][i] in bars
  {
    var n := |bars| - 1;
    var front, x := bars[..n], bars[n];
    var earlier, group := Chunks(front, minutes), Chunks(bars, minutes)[c];
    hide WindowStart;
    assert group == [x] || (c < |earlier| && (group == earlier[c] || group == earlier[c] + [x]));
    hide Chunks;
    FrontBefore(bars);
    if group == [x] {
      assert x in bars;
    } else {
      ChunksSorted(front, minutes, c);
      GroupGrows(earlier[c], x, front);
      GroupFrom(earlier[c], group, x, front, bars);
    }
  }

  lemma FrontBefore(bars: seq<Bar>)
    requires bars != [] && ByStart(bars)
    ensures ByStart(bars[..|bars| - 1])
    ensures forall b :: b in bars[..|bars| - 1] ==> b in bars && b.startTime <= bars[|bars| - 1].startTime
  {
  }

  lemma GroupFrom(earlier: seq<Bar>, group: seq<Bar>, x: Bar, front: seq<Bar>, bars: seq<Bar>)
    requires group == earlier || group == earlier + [x]
    requires forall i :: 0 <= i < |earlier| ==> earlier[i] in front
    requires x in bars && forall b :: b in front ==> b in bars
    ensures forall i :: 0 <= i < |group| ==> group[i] in bars
  {
  }

  lemma GroupGrows(group: Group, x: Bar, bars: seq<Bar>)
    requires ByStart(group)
    requires forall i :: 0 <= i < |group| ==> group[i] in bars
    requires forall b :: b in bars ==> b.startTime <= x.startTime
    ensures ByStart(group + [x])
  {
  }

  /** The aggregation of any bars, in any order, is the sequence of runs of the sorted bars regrouped by
      the target windows. */
  lemma AggregatedIsRuns(bars: seq<Bar>, target: ChartInterval)
    requires IntervalMinutes(target) > 0
    ensures Summaries(Aggregated(bars, target), IntervalMinutes(target)) ==
            Runs(Recode(KeyedBars(Sorted(bars)), Coarser(IntervalMinutes(target))))
  {
    hide WindowStart, Runs, Recode, Chunks, Sorted;
    var minutes, sorted := IntervalMinutes(target), Sorted(bars);
    var chunks := Chunks(sorted, minutes);
    SortedSorts(bars);
    ChunksAreRuns(sorted, minutes);
    forall i | 0 <= i < |chunks|
      ensures AggregateGroup(chunks[i], target).ohlcv == JoinAll(chunks[i])
      ensures AggregateGroup(chunks[i], target).startTime == chunks[i][0].startTime
    {
      ChunksSorted(sorted, minutes, i);
      SortedFixed(chunks[i]);
      JoinAllFields(chunks[i]);
    }
    assert Summaries(Aggregated(bars, target), minutes) == KeyedChunks(chunks, minutes);
  }

  // ---- The two builders agree ----

  lemma TradesCoarsen(ticks: seq<Tick>, fine: nat, coarse: nat)
    requires Tiles(fine) && Tiles(coarse) && coarse % fine == 0
    ensures Recode(Trades(ticks, fine), Coarser(coarse)) == Trades(ticks, coarse)
  {
    forall i | 0 <= i < |ticks|
      ensures Coarser(coarse)(WindowStart(ticks[i].timestamp, fine)) == WindowStart(ticks[i].timestamp, coarse)
    {
      WindowsNest(ticks[i].timestamp, fine, coarse);
    }
  }

  lemma TargetTiles(target: ChartInterval, fine: nat)
    requires IntervalMinutes(target) > 0 && fine > 0 && IntervalMinutes(target) % fine == 0 && 60 % fine == 0
    ensures Tiles(fine) && Tiles(IntervalMinutes(target))
  {
  }

  /** Main result: for one stock, time-ordered ticks, any timer checks and any interval dividing the target,
      aggregating the collector's bars gives window by window the summary of the trades in that window;
      below a day that is exactly what the collector itself builds for the target interval. */
  lemma AggregationMatchesCollector(stockCode: string, fine: nat, target: ChartInterval, events: seq<Event>)
    requires fine > 0 && 60 % fine == 0
    requires IntervalMinutes(target) > 0 && IntervalMinutes(target) % fine == 0
    requires TimeOrdered(events, stockCode)
    ensures var minutes := IntervalMinutes(target);
      var results := Summaries(Aggregated(Produced(Slot(stockCode, fine), events), target), minutes);
      && results == Runs(Trades(TicksOf(events, stockCode), minutes))
      && (minutes < DAY_MINUTES ==> results == KeyedBars(Produced(Slot(stockCode, minutes), events)))
  {
    hide WindowStart;
    hide Runs;
    var minutes, slot := IntervalMinutes(target), Slot(stockCode, fine);
    var bars, trades := Produced(slot, events), Trades(TicksOf(events, stockCode), fine);
    TargetTiles(target, fine);
    CollectorGroupsTrades(slot, events);
    TradesInOrder(events, stockCode, fine);
    RunsIncrease(trades);
    assert forall i :: 0 <= i < |bars| ==> KeyedBars(bars)[i].key == bars[i].startTime;
    SortedFixed(bars);
    AggregatedIsRuns(bars, target);
    RunsCoarsen(trades, Coarser(minutes));
    TradesCoarsen(TicksOf(events, stockCode), fine, minutes);
    if minutes < DAY_MINUTES {
      CollectorGroupsTrades(Slot(stockCode, minutes), events);
    }
  }

  // ---- What any aggregation keeps ----

  function ResultVolume(results: seq<AggregatedData>): int {
    if results == [] then 0 else ResultVolume(results[..|results| - 1]) + results[|results| - 1].ohlcv.volume
  }

  function ResultBars(results: seq<AggregatedData>): nat {
    if results == [] then 0 else ResultBars(results[..|results| - 1]) + results[|results| - 1].barCount
  }

  lemma {:induction false} VolumeConcat(a: seq<Bar>, b: seq<Bar>)
    ensures TotalVolume(a + b) == TotalVolume(a) + TotalVolume(b)
  {
    if b == [] {
      assert a + b == a;
    } else {
      VolumeConcat(a, b[..|b| - 1]);
      assert (a + b)[..|a + b| - 1] == a + b[..|b| - 1];
    }
  }

  lemma {:induction false} VolumePermutes(a: seq<Bar>, b: seq<Bar>)
    requires multiset(a) == multiset(b)
    ensures TotalVolume(a) == TotalVolume(b)
  {
    assert |a| == |multiset(a)| == |multiset(b)| == |b|;
    if a != [] {
      var n := |a| - 1;
      assert a[n] in multiset(b);
      var i :| 0 <= i < |b| && b[i] == a[n];
      var left, right := b[..i], b[i + 1..];
      assert b == left + ([b[i]] + right);
      VolumeConcat(left, [b[i]] + right);
      VolumeConcat([b[i]], right);
      VolumeConcat(left, right);
      assert [b[i]][..0] == [];
      assert TotalVolume([b[i]]) == b[i].ohlcv.volume;
      DropLast(a);
      assert multiset(left + right) == multiset(b) - multiset{b[i]};
      VolumePermutes(a[..n], left + right);
    }
  }

  lemma GroupTotal(group: Group, interval: ChartInterval)
    ensures AggregateGroup(group, interval).ohlcv.volume == TotalVolume(group)
    ensures AggregateGroup(group, interval).barCount == |group|
  {
    SortedSorts(group);
    VolumePermutes(Sorted(group), group);
  }

  lemma {:induction false} GroupTotals(chunks: seq<Group>, interval: ChartInterval)
    ensures ResultVolume(AggregateAll(chunks, interval)) == TotalVolume(Flatten(chunks))
    ensures ResultBars(AggregateAll(chunks, interval)) == |Flatten(chunks)|
  {
    hide AggregateGroup;
    if chunks != [] {
      var n := |chunks| - 1;
      GroupTotals(chunks[..n], interval);
      AggregateAllPush(chunks[..n], chunks[n], interval);
      assert chunks == chunks[..n] + [chunks[n]];
      VolumeConcat(Flatten(chunks[..n]), chunks[n]);
      GroupTotal(chunks[n], interval);
      var results := AggregateAll(chunks, interval);
      assert results[..|results| - 1] == AggregateAll(chunks[..n], interval);
    }
  }

  /** Aggregation to a served interval conserves total volume and bar count, whatever the input. */
  lemma AggregationConserves(bars: seq<Bar>, target: ChartInterval)
    requires IntervalMinutes(target) > 0
    ensures ResultVolume(Aggregated(bars, target)) == TotalVolume(bars)
    ensures ResultBars(Aggregated(bars, target)) == |bars|
  {
    SortedSorts(bars);
    ChunksPartition(Sorted(bars), IntervalMinutes(target));
    GroupTotals(Chunks(Sorted(bars), IntervalMinutes(target)), target);
    VolumePermutes(Sorted(bars), bars);
  }

  /** Results come in strictly increasing window order, and each summarises exactly the input bars that
      start in its window, taken in time order. */
  lemma ResultsAreWindows(bars: seq<Bar>, target: ChartInterval)
    requires IntervalMinutes(target) > 0
    ensures EachWindowOnce(Summaries(Aggregated(bars, target), IntervalMinutes(target)),
                           Recode(KeyedBars(Sorted(bars)), Coarser(IntervalMinutes(target))))
  {
    var minutes := IntervalMinutes(target);
    assert Tiles(minutes);
    hide IntervalMinutes, Tiles, Sorted, ByStart, EachWindowOnce, SortedKeys, Aggregated, Summaries, Recode, KeyedBars, Coarser, Runs;
    var sorted := Sorted(bars);
    AggregatedIsRuns(bars, target);
    SortedSorts(bars);
    WindowsInOrder(sorted, minutes);
    RunsOnce(Recode(KeyedBars(sorted), Coarser(minutes)));
  }

  lemma WindowsInOrder(bars: seq<Bar>, minutes: nat)
    requires Tiles(minutes) && ByStart(bars)
    ensures SortedKeys(Recode(KeyedBars(bars), Coarser(minutes)))
  {
    var items := Recode(KeyedBars(bars), Coarser(minutes));
    forall i, j | 0 <= i < j < |items|
      ensures items[i].key <= items[j].key
    {
      WindowHolds(bars[i].startTime, bars[j].startTime, minutes);
    }
  }

  /** With distinct start times the order in which stored bars are handed over does not matter. */
  lemma AggregationPermutes(a: seq<Bar>, b: seq<Bar>, target: ChartInterval)
    requires DistinctStarts(a) && multiset(a) == multiset(b)
    ensures Aggregated(a, target) == Aggregated(b, target)
  {
    SortedSorts(a);
    SortedSorts(b);
    SortedDistinct(a);
    OrderedUnique(Sorted(a), Sorted(b));
  }

  lemma {:induction false} SortedDistinct(bars: seq<Bar>)
    requires DistinctStarts(bars)
    ensures DistinctStarts(Sorted(bars))
  {
    if bars != [] {
      var n := |bars| - 1;
      SortedDistinct(bars[..n]);
      SortedSorts(bars[..n]);
      forall b | b in Sorted(bars[..n])
        ensures b.startTime != bars[n].startTime
      {
        assert b in multiset(bars[..n]);
      }
      InsertDistinct(Sorted(bars[..n]), bars[n]);
    }
  }

  lemma {:induction false} InsertDistinct(sorted: seq<Bar>, bar: Bar)
    requires ByStart(sorted) && DistinctStarts(sorted)
    requires forall b :: b in sorted ==> b.startTime != bar.startTime
    ensures DistinctStarts(Insert(sorted, bar))
  {
    var n := |sorted|;
    if n > 0 && sorted[n - 1].startTime > bar.startTime {
      var front, last := sorted[..n - 1], sorted[n - 1];
      InsertDistinct(front, bar);
      InsertPermutes(front, bar);
      var inner := Insert(front, bar);
      forall i | 0 <= i < |inner|
        ensures inner[i].startTime != last.startTime
      {
        assert inner[i] in inner;
      }
    }
  }

  // ---- Envelope and volume-weighted price ----

  ghost predicate Enveloped(b: Ohlcv) {
    b.low <= b.open <= b.high && b.low <= b.close <= b.high
  }

  lemma {:induction false} ExtremesBound(bars: seq<Bar>)
    requires bars != []
    ensures forall b :: b in bars ==> Lowest(bars) <= b.ohlcv.low && b.ohlcv.high <= Highest(bars)
  {
    var n := |bars| - 1;
    if n > 0 {
      ExtremesBound(bars[..n]);
      assert bars == bars[..n] + [bars[n]];
    }
  }

  /** The close-weighted sum of bars that trade inside [low, high] lies between low and high times volume. */
  lemma {:induction false} WeightedSumBounds(bars: seq<Bar>, low: real, high: real)
    requires forall b :: b in bars ==> low <= b.ohlcv.close <= high && b.ohlcv.volume >= 0
    ensures low * TotalVolume(bars) as real <= WeightedSum(bars) <= high * TotalVolume(bars) as real
  {
    if bars != [] {
      var n := |bars| - 1;
      var b, before := bars[n].ohlcv, TotalVolume(bars[..n]) as real;
      WeightedSumBounds(bars[..n], low, high);
      var v := b.volume as real;
      assert b == bars[n].ohlcv && bars[n] in bars;
      MulMonotone(low, b.close, v);
      MulMonotone(b.close, high, v);
      assert TotalVolume(bars) as real == before + v;
      MulDistributes(low, before, v);
      MulDistributes(high, before, v);
    }
  }

  lemma MulMonotone(x: real, y: real, v: real)
    requires x <= y && v >= 0.0
    ensures x * v <= y * v
  {
  }

  lemma MulDistributes(x: real, a: real, b: real)
    ensures x * (a + b) == x * a + x * b
  {
  }

  lemma QuotientBetween(low: real, sum: real, high: real, volume: real)
    requires volume > 0.0 && low * volume <= sum <= high * volume
    ensures low <= sum / volume <= high
  {
  }

  lemma SortedMembers(bars: seq<Bar>)
    ensures forall b :: b in Sorted(bars) ==> b in bars
  {
    SortedSorts(bars);
    forall b | b in Sorted(bars)
      ensures b in bars
    {
      assert b in multiset(bars);
    }
  }

  /** If every bar's open and close lie inside its own range, so do those of every group. */
  lemma GroupEnveloped(group: Group, interval: ChartInterval)
    requires forall b :: b in group ==> Enveloped(b.ohlcv)
    ensures var r := AggregateGroup(group, interval);
      Enveloped(r.ohlcv) && r.ohlcv.low <= r.typicalPrice <= r.ohlcv.high
  {
    var bars := Sorted(group);
    SortedMembers(group);
    SortedSorts(group);
    ExtremesBound(bars);
    assert bars[0] in bars && bars[|bars| - 1] in bars;
  }

  /** A group's volume-weighted price is present exactly when something traded; when every bar closes inside
      its own range and no volume is negative it lies in the group's range. */
  lemma GroupVwap(group: Group, interval: ChartInterval)
    requires forall b :: b in group ==> b.ohlcv.low <= b.ohlcv.close <= b.ohlcv.high && b.ohlcv.volume >= 0
    ensures var r := AggregateGroup(group, interval);
      && (r.vwap.Some? <==> exists b :: b in group && b.ohlcv.volume > 0)
      && (r.vwap.Some? ==> r.ohlcv.low <= r.vwap.value <= r.ohlcv.high)
  {
    var bars := Sorted(group);
    SortedMembers(group);
    SortedSorts(group);
    VolumePermutes(bars, group);
    SomethingTraded(group);
    if TotalVolume(bars) > 0 {
      VwapBetween(bars);
    }
  }

  lemma VwapBetween(bars: seq<Bar>)
    requires bars != [] && TotalVolume(bars) > 0
    requires forall b :: b in bars ==> b.ohlcv.low <= b.ohlcv.close <= b.ohlcv.high && b.ohlcv.volume >= 0
    ensures Lowest(bars) <= WeightedSum(bars) / TotalVolume(bars) as real <= Highest(bars)
  {
    hide Lowest, Highest, WeightedSum, TotalVolume;
    var low, high := Lowest(bars), Highest(bars);
    ExtremesBound(bars);
    WeightedSumBounds(bars, low, high);
    QuotientBetween(low, WeightedSum(bars), high, TotalVolume(bars) as real);
  }

  lemma {:induction false} SomethingTraded(bars: seq<Bar>)
    requires forall b :: b in bars ==> b.ohlcv.volume >= 0
    ensures TotalVolume(bars) >= 0
    ensures TotalVolume(bars) > 0 <==> exists b :: b in bars && b.ohlcv.volume > 0
  {
    if bars != [] {
      var n := |bars| - 1;
      SomethingTraded(bars[..n]);
      assert bars == bars[..n] + [bars[n]];
    }
  }

  // ---- What each result says of its window ----

  function Traded(b: Ohlcv): real {
    b.close * b.volume as real
  }

  /** Money turned over: close times volume, summed over the bars. */
  function Turnover(bars: seq<Bar>): real {
    if bars == [] then 0.0 else Traded(bars[0].ohlcv) + Turnover(bars[1..])
  }

  /** The bars that start in the window beginning at `start`, in the order given. */
  function Select(bars: seq<Bar>, start: Time, minutes: nat): seq<Bar>
    requires minutes > 0
  {
    if bars == [] then []
    else if WindowStart(bars[0].startTime, minutes) == start then [bars[0]] + Select(bars[1..], start, minutes)
    else Select(bars[1..], start, minutes)
  }

  /** Of two arrangements of the same elements, the second is the first's head put somewhere into its tail's. */
  lemma TakeOut<T>(a: seq<T>, b: seq<T>) returns (left: seq<T>, right: seq<T>)
    requires multiset(a) == multiset(b) && a != []
    ensures b == left + ([a[0]] + right) && multiset(a[1..]) == multiset(left + right)
  {
    assert a == [a[0]] + a[1..];
    assert a[0] in multiset(b);
    var i :| 0 <= i < |b| && b[i] == a[0];
    left, right := b[..i], b[i + 1..];
    assert b == left + ([b[i]] + right);
    assert multiset(left + right) == multiset(b) - multiset{b[i]};
  }

  lemma {:induction false} TurnoverConcat(a: seq<Bar>, b: seq<Bar>)
    ensures Turnover(a + b) == Turnover(a) + Turnover(b)
  {
    hide Traded;
    if a == [] {
      assert a + b == b;
    } else {
      TurnoverConcat(a[1..], b);
      assert (a + b)[1..] == a[1..] + b;
    }
  }

  lemma TurnoverMiddle(left: seq<Bar>, b: Bar, right: seq<Bar>)
    ensures Turnover(left + ([b] + right)) == Turnover(left + right) + Traded(b.ohlcv)
  {
    hide Traded;
    TurnoverConcat(left, [b] + right);
    TurnoverConcat(left, right);
    assert ([b] + right)[1..] == right;
  }

  /** The turnover depends on which bars there are and not on their order. */
  lemma {:induction false} TurnoverPermutes(a: seq<Bar>, b: seq<Bar>)
    requires multiset(a) == multiset(b)
    ensures Turnover(a) == Turnover(b)
  {
    hide Traded;
    if a == [] {
      assert |b| == |multiset(b)| == 0;
    } else {
      var left, right := TakeOut(a, b);
      TurnoverPermutes(a[1..], left + right);
      TurnoverMiddle(left, a[0], right);
    }
  }

  lemma {:induction false} WeightedSumIsTurnover(bars: seq<Bar>)
    ensures WeightedSum(bars) == Turnover(bars)
  {
    if bars != [] {
      var n := |bars| - 1;
      WeightedSumIsTurnover(bars[..n]);
      TurnoverMiddle(bars[..n], bars[n], []);
      assert bars == bars[..n] + ([bars[n]] + []) && bars[..n] + [] == bars[..n];
    }
  }

  /** Start, open and stock are those of an earliest bar; end and close those of a latest. */
  ghost predicate Spans(r: AggregatedData, bars: seq<Bar>) {
    && (exists b :: b in bars && (forall x :: x in bars ==> b.startTime <= x.startTime)
                    && r.startTime == b.startTime && r.ohlcv.open == b.ohlcv.open && r.stockCode == b.slot.stockCode)
    && (exists b :: b in bars && (forall x :: x in bars ==> x.startTime <= b.startTime)
                    && r.endTime == b.endTime && r.ohlcv.close == b.ohlcv.close)
  }

  /** High and low bound every bar and are attained. */
  ghost predicate Tight(r: AggregatedData, bars: seq<Bar>) {
    && (forall b :: b in bars ==> r.ohlcv.low <= b.ohlcv.low && b.ohlcv.high <= r.ohlcv.high)
    && (exists b :: b in bars && r.ohlcv.low == b.ohlcv.low)
    && (exists b :: b in bars && r.ohlcv.high == b.ohlcv.high)
  }

  /** The volume-weighted price is given exactly for a positive volume, and times the volume it is the turnover; three
      typical prices are the high, the low and the close together. */
  ghost predicate Priced(r: AggregatedData, bars: seq<Bar>) {
    && r.barCount == |bars| && r.ohlcv.volume == TotalVolume(bars)
    && (r.vwap.Some? <==> TotalVolume(bars) > 0)
    && (r.vwap.Some? ==> r.vwap.value * r.ohlcv.volume as real == Turnover(bars))
    && 3.0 * r.typicalPrice == r.ohlcv.high + r.ohlcv.low + r.ohlcv.close
  }

  /** Everything a result says is true of the given bars, in whatever order they come. */
  ghost predicate Describes(r: AggregatedData, bars: seq<Bar>) {
    Spans(r, bars) && Tight(r, bars) && Priced(r, bars)
  }

  lemma QuotientTimes(sum: real, volume: real)
    requires volume != 0.0
    ensures sum / volume * volume == sum
  {
  }

  /** A bar with the lowest low and one with the highest high. */
  lemma {:induction false} ExtremesAttained(bars: seq<Bar>) returns (lowest: Bar, highest: Bar)
    requires bars != []
    ensures lowest in bars && Lowest(bars) == lowest.ohlcv.low
    ensures highest in bars && Highest(bars) == highest.ohlcv.high
  {
    var n := |bars| - 1;
    if n == 0 {
      lowest, highest := bars[0], bars[0];
    } else {
      lowest, highest := ExtremesAttained(bars[..n]);
      if bars[n].ohlcv.low <= lowest.ohlcv.low {
        lowest := bars[n];
      }
      if bars[n].ohlcv.high >= highest.ohlcv.high {
        highest := bars[n];
      }
    }
  }

  /** A group's result describes the group. */
  lemma GroupDescribed(group: Group, interval: ChartInterval)
    ensures Describes(AggregateGroup(group, interval), group)
  {
    var r, bars := AggregateGroup(group, interval), Sorted(group);
    SortedSorts(group);
    MembersAlike(bars, group);
    assert bars[0] in bars && bars[|bars| - 1] in bars;
    assert Spans(r, group);
    ExtremesBound(bars);
    var lowest, highest := ExtremesAttained(bars);
    assert Tight(r, group);
    GroupPriced(group, interval);
  }

  lemma GroupPriced(group: Group, interval: ChartInterval)
    ensures Priced(AggregateGroup(group, interval), group)
  {
    hide Traded, Sorted, Highest, Lowest, TotalVolume, WeightedSum, Turnover;
    var bars := Sorted(group);
    SortedSorts(group);
    VolumePermutes(bars, group);
    TurnoverPermutes(bars, group);
    WeightedSumIsTurnover(bars);
    if TotalVolume(bars) > 0 {
      QuotientTimes(WeightedSum(bars), TotalVolume(bars) as real);
    }
  }

  lemma MembersAlike(a: seq<Bar>, b: seq<Bar>)
    requires multiset(a) == multiset(b)
    ensures |a| == |b| && forall x :: x in a <==> x in b
  {
    assert |a| == |multiset(a)| == |multiset(b)| == |b|;
    assert forall x :: x in a <==> x in multiset(a);
    assert forall x :: x in b <==> x in multiset(b);
  }

  lemma DescribesPermuted(r: AggregatedData, a: seq<Bar>, b: seq<Bar>)
    requires Describes(r, a) && multiset(a) == multiset(b)
    ensures Describes(r, b)
  {
    hide Spans, Tight, TotalVolume, Turnover;
    MembersAlike(a, b);
    VolumePermutes(a, b);
    TurnoverPermutes(a, b);
    SpansAlike(r, a, b);
    TightAlike(r, a, b);
  }

  lemma SpansAlike(r: AggregatedData, a: seq<Bar>, b: seq<Bar>)
    requires Spans(r, a) && forall x :: x in a <==> x in b
    ensures Spans(r, b)
  {
    var first :| first in a && (forall x :: x in a ==> first.startTime <= x.startTime)
                 && r.startTime == first.startTime && r.ohlcv.open == first.ohlcv.open && r.stockCode == first.slot.stockCode;
    var last :| last in a && (forall x :: x in a ==> x.startTime <= last.startTime)
                && r.endTime == last.endTime && r.ohlcv.close == last.ohlcv.close;
    assert first in b && last in b;
  }

  lemma TightAlike(r: AggregatedData, a: seq<Bar>, b: seq<Bar>)
    requires Tight(r, a) && forall x :: x in a <==> x in b
    ensures Tight(r, b)
  {
    var lowest :| lowest in a && r.ohlcv.low == lowest.ohlcv.low;
    var highest :| highest in a && r.ohlcv.high == highest.ohlcv.high;
    assert lowest in b && highest in b;
  }

  lemma Prepend<T>(x: T, a: seq<T>, b: seq<T>)
    ensures [x] + (a + b) == ([x] + a) + b
  {
  }

  lemma {:induction false} SelectConcat(a: seq<Bar>, b: seq<Bar>, start: Time, minutes: nat)
    requires minutes > 0
    ensures Select(a + b, start, minutes) == Select(a, start, minutes) + Select(b, start, minutes)
  {
    hide WindowStart;
    if a == [] {
      assert a + b == b;
    } else {
      SelectConcat(a[1..], b, start, minutes);
      assert (a + b)[0] == a[0] && (a + b)[1..] == a[1..] + b;
      Prepend(a[0], Select(a[1..], start, minutes), Select(b, start, minutes));
    }
  }

  lemma {:induction false} SelectAll(bars: seq<Bar>, start: Time, minutes: nat)
    requires minutes > 0
    requires forall b :: b in bars ==> WindowStart(b.startTime, minutes) == start
    ensures Select(bars, start, minutes) == bars
  {
    hide WindowStart;
    if bars != [] {
      SelectAll(bars[1..], start, minutes);
    }
  }

  lemma {:induction false} SelectNone(bars: seq<Bar>, start: Time, minutes: nat)
    requires minutes > 0
    requires forall b :: b in bars ==> WindowStart(b.startTime, minutes) != start
    ensures Select(bars, start, minutes) == []
  {
    hide WindowStart;
    if bars != [] {
      SelectNone(bars[1..], start, minutes);
    }
  }

  /** Selecting commutes with reordering. */
  lemma {:induction false} SelectPermutes(a: seq<Bar>, b: seq<Bar>, start: Time, minutes: nat)
    requires minutes > 0 && multiset(a) == multiset(b)
    ensures multiset(Select(a, start, minutes)) == multiset(Select(b, start, minutes))
  {
    hide WindowStart;
    if a == [] {
      assert |b| == |multiset(b)| == 0;
    } else {
      var left, right := TakeOut(a, b);
      SelectPermutes(a[1..], left + right, start, minutes);
      SelectMiddle(left, a[0], right, start, minutes);
    }
  }

  lemma SelectMiddle(left: seq<Bar>, b: Bar, right: seq<Bar>, start: Time, minutes: nat)
    requires minutes > 0
    ensures multiset(Select(left + ([b] + right), start, minutes)) == multiset(Select(left + right, start, minutes)) +
            if WindowStart(b.startTime, minutes) == start then multiset{b} else multiset{}
  {
    hide WindowStart;
    SelectConcat(left, [b] + right, start, minutes);
    SelectConcat(left, right, start, minutes);
    assert ([b] + right)[1..] == right;
  }

  ghost predicate StrictChunks(chunks: seq<Group>, minutes: nat)
    requires minutes > 0
  {
    forall i, j :: 0 <= i < j < |chunks| ==>
      WindowStart(chunks[i][0].startTime, minutes) < WindowStart(chunks[j][0].startTime, minutes)
  }

  /** Among groups of different windows, selecting a window finds its group. */
  lemma {:induction false} SelectChunk(chunks: seq<Group>, minutes: nat, c: nat)
    requires minutes > 0 && c < |chunks| && StrictChunks(chunks, minutes)
    requires forall i :: 0 <= i < |chunks| ==> OneWindow(chunks[i], minutes)
    ensures Select(Flatten(chunks), WindowStart(chunks[c][0].startTime, minutes), minutes) == chunks[c]
  {
    hide WindowStart;
    var n := |chunks| - 1;
    var start := WindowStart(chunks[c][0].startTime, minutes);
    SelectConcat(Flatten(chunks[..n]), chunks[n], start, minutes);
    if c == n {
      SelectAll(chunks[n], start, minutes);
      SelectOthers(chunks[..n], start, minutes);
    } else {
      SelectChunk(chunks[..n], minutes, c);
      SelectNone(chunks[n], start, minutes);
    }
  }

  lemma {:induction false} SelectOthers(chunks: seq<Group>, start: Time, minutes: nat)
    requires minutes > 0
    requires forall i :: 0 <= i < |chunks| ==>
      OneWindow(chunks[i], minutes) && WindowStart(chunks[i][0].startTime, minutes) != start
    ensures Select(Flatten(chunks), start, minutes) == []
  {
    hide WindowStart;
    if chunks != [] {
      var n := |chunks| - 1;
      SelectOthers(chunks[..n], start, minutes);
      SelectConcat(Flatten(chunks[..n]), chunks[n], start, minutes);
      SelectNone(chunks[n], start, minutes);
    }
  }

  lemma ChunksStrict(bars: seq<Bar>, minutes: nat)
    requires Tiles(minutes) && ByStart(bars)
    ensures StrictChunks(Chunks(bars, minutes), minutes)
  {
    hide WindowStart, Chunks, Runs;
    var chunks := Chunks(bars, minutes);
    var runs := Runs(Recode(KeyedBars(bars), Coarser(minutes)));
    ChunksAreRuns(bars, minutes);
    WindowsInOrder(bars, minutes);
    RunsIncrease(Recode(KeyedBars(bars), Coarser(minutes)));
    assert |runs| == |chunks|;
    assert forall i :: 0 <= i < |chunks| ==> runs[i].key == WindowStart(chunks[i][0].startTime, minutes);
  }

  /** Main result: every result of an aggregation, from whatever bars in whatever order, describes the bars handed over that
      start in its window: first and last, extremes, volume, number, volume-weighted and typical price. */
  lemma ResultDescribed(bars: seq<Bar>, target: ChartInterval, i: nat)
    requires IntervalMinutes(target) > 0 && i < |Aggregated(bars, target)|
    ensures var r, minutes := Aggregated(bars, target)[i], IntervalMinutes(target);
      r.interval == target && Describes(r, Select(bars, WindowStart(r.startTime, minutes), minutes))
  {
    var minutes, sorted := IntervalMinutes(target), Sorted(bars);
    TargetTiles(target, 1);
    hide WindowStart, Sorted, Chunks, Select, Describes, Tiles, IntervalMinutes, ByStart;
    var chunks := Chunks(sorted, minutes);
    var group := chunks[i];
    SortedSorts(bars);
    ChunksPartition(sorted, minutes);
    ChunksStrict(sorted, minutes);
    SelectChunk(chunks, minutes, i);
    GroupStarts(group, target, minutes);
    GroupDescribed(group, target);
    var start := WindowStart(group[0].startTime, minutes);
    SelectPermutes(sorted, bars, start, minutes);
    DescribesPermuted(AggregateGroup(group, target), group, Select(bars, start, minutes));
  }

  lemma GroupStarts(group: Group, interval: ChartInterval, minutes: nat)
    requires minutes > 0 && OneWindow(group, minutes)
    ensures WindowStart(AggregateGroup(group, interval).startTime, minutes) == WindowStart(group[0].startTime, minutes)
  {
    hide WindowStart;
    SortedSorts(group);
    MembersAlike(Sorted(group), group);
    assert Sorted(group)[0] in group;
  }
}
