/** Open/high/low/close/volume summaries and the grouping of consecutive summaries that share a time window.
    Both bar builders of the program (the online collector and the offline aggregator) are proved against
    the grouping defined here. */
module BarSummary {

  datatype Ohlcv = Ohlcv(open: real, high: real, low: real, close: real, volume: int)

  function Max(x: real, y: real): real { if x >= y then x else y }

  function Min(x: real, y: real): real { if x <= y then x else y }

  /** The summary of one trade. */
  function Single(price: real, volume: int): Ohlcv {
    Ohlcv(price, price, price, price, volume)
  }

  /** The summary of a stretch of trading `a` followed by a stretch `b`. */
  function Join(a: Ohlcv, b: Ohlcv): Ohlcv {
    Ohlcv(a.open, Max(a.high, b.high), Min(a.low, b.low), b.close, a.volume + b.volume)
  }

  /** A summary labelled with the start of the window it belongs to. */
  datatype Keyed = Keyed(key: int, bar: Ohlcv)

  /** Groups already made, extended by one more item: it joins the last group or opens a new one. */
  function Push(groups: seq<Keyed>, x: Keyed): seq<Keyed> {
    var n := |groups|;
    if n > 0 && groups[n - 1].key == x.key
    then groups[..n - 1] + [Keyed(x.key, Join(groups[n - 1].bar, x.bar))]
    else groups + [x]
  }

  /** The maximal runs of equal keys, each reduced to one summary. */
  function Runs(items: seq<Keyed>): seq<Keyed> {
    if items == [] then [] else Push(Runs(items[..|items| - 1]), items[|items| - 1])
  }

  function Recode(items: seq<Keyed>, coarser: int -> int): seq<Keyed> {
    seq(|items|, i requires 0 <= i < |items| => Keyed(coarser(items[i].key), items[i].bar))
  }

  lemma RunsPush(items: seq<Keyed>, x: Keyed)
    ensures Runs(items + [x]) == Push(Runs(items), x)
  {
    assert (items + [x])[..|items|] == items;
  }

  lemma RecodePush(items: seq<Keyed>, x: Keyed, coarser: int -> int)
    ensures Recode(items + [x], coarser) == Recode(items, coarser) + [Keyed(coarser(x.key), x.bar)]
  {
  }

  /** Grouping by fine windows and regrouping the result by coarser windows gives what grouping by the
      coarser windows directly gives. */
  lemma {:induction false} RunsCoarsen(items: seq<Keyed>, coarser: int -> int)
    ensures Runs(Recode(Runs(items), coarser)) == Runs(Recode(items, coarser))
  {
    if items != [] {
      var n := |items| - 1;
      var front, x := items[..n], items[n];
      assert items == front + [x];
      RunsCoarsen(front, coarser);
      var fine := Runs(front);
      var x' := Keyed(coarser(x.key), x.bar);
      RecodePush(front, x, coarser);
      RunsPush(Recode(front, coarser), x');
      var m := |fine|;
      if m > 0 && fine[m - 1].key == x.key {
        var before, last := fine[..m - 1], fine[m - 1];
        var joined := Keyed(x.key, Join(last.bar, x.bar));
        var last', joined' := Keyed(coarser(last.key), last.bar), Keyed(coarser(x.key), joined.bar);
        assert fine == before + [last];
        RecodePush(before, last, coarser);
        RecodePush(before, joined, coarser);
        RunsPush(Recode(before, coarser), last');
        RunsPush(Recode(before, coarser), joined');
        PushJoined(Runs(Recode(before, coarser)), last', x');
      } else {
        RecodePush(fine, x, coarser);
        RunsPush(Recode(fine, coarser), x');
      }
    }
  }

  /** Joining two items of one window before or after pushing them makes no difference. */
  lemma PushJoined(groups: seq<Keyed>, a: Keyed, b: Keyed)
    requires a.key == b.key
    ensures Push(Push(groups, a), b) == Push(groups, Keyed(b.key, Join(a.bar, b.bar)))
  {
    var n := |groups|;
    if n > 0 && groups[n - 1].key == a.key {
      var g := Push(groups, a);
      assert |g| == n && g[..n - 1] == groups[..n - 1];
    } else {
      var g := Push(groups, a);
      assert g[..n] == groups;
    }
  }

  /** What a summary of some trading is, without any order of computation: the first open, the last close,
      extremes that bound every part and are attained, and the total volume. */
  ghost predicate Summarises(bar: Ohlcv, parts: seq<Ohlcv>) {
    && parts != []
    && bar.open == parts[0].open
    && bar.close == parts[|parts| - 1].close
    && (forall i :: 0 <= i < |parts| ==> bar.low <= parts[i].low && parts[i].high <= bar.high)
    && (exists i :: 0 <= i < |parts| && parts[i].low == bar.low)
    && (exists i :: 0 <= i < |parts| && parts[i].high == bar.high)
    && bar.volume == Volume(parts)
  }

  function Volume(parts: seq<Ohlcv>): int {
    if parts == [] then 0 else Volume(parts[..|parts| - 1]) + parts[|parts| - 1].volume
  }

  /** The summaries whose item carries the given key, in order. */
  function InWindow(items: seq<Keyed>, key: int): seq<Ohlcv> {
    if items == [] then []
    else
      var n := |items| - 1;
      var earlier := InWindow(items[..n], key);
      if items[n].key == key then earlier + [items[n].bar] else earlier
  }

  ghost predicate SortedKeys(items: seq<Keyed>) {
    forall i, j :: 0 <= i < j < |items| ==> items[i].key <= items[j].key
  }

  ghost predicate StrictKeys(items: seq<Keyed>) {
    forall i, j :: 0 <= i < j < |items| ==> items[i].key < items[j].key
  }

  lemma StrictWithNew(groups: seq<Keyed>, x: Keyed)
    requires StrictKeys(groups) && (groups != [] ==> groups[|groups| - 1].key < x.key)
    ensures StrictKeys(groups + [x])
  {
  }

  lemma StrictWithLast(groups: seq<Keyed>, x: Keyed)
    requires StrictKeys(groups) && groups != [] && groups[|groups| - 1].key == x.key
    ensures StrictKeys(groups[..|groups| - 1] + [x])
  {
  }

  lemma PushIncreases(groups: seq<Keyed>, x: Keyed)
    requires StrictKeys(groups) && (groups != [] ==> groups[|groups| - 1].key <= x.key)
    ensures StrictKeys(Push(groups, x)) && Push(groups, x) != []
    ensures Push(groups, x)[|Push(groups, x)| - 1].key == x.key
  {
    var n := |groups|;
    hide StrictKeys, Join;
    if n > 0 && groups[n - 1].key == x.key {
      StrictWithLast(groups, Keyed(x.key, Join(groups[n - 1].bar, x.bar)));
    } else {
      StrictWithNew(groups, x);
    }
  }

  /** For items in key order the runs come in strictly increasing key order, the last run being the last key's. */
  lemma {:induction false} RunsIncrease(items: seq<Keyed>)
    requires SortedKeys(items)
    ensures StrictKeys(Runs(items))
    ensures items != [] ==> Runs(items) != [] && Runs(items)[|Runs(items)| - 1].key == items[|items| - 1].key
  {
    if items != [] {
      var n := |items| - 1;
      var earlier, x := Runs(items[..n]), items[n];
      RunsIncrease(items[..n]);
      assert Runs(items) == Push(earlier, x);
      hide Runs, StrictKeys, Push;
      assert n > 0 ==> items[..n][n - 1].key <= x.key;
      PushIncreases(earlier, x);
    }
  }

  /** Every window with an item in it has a run. */
  lemma {:induction false} RunsCover(items: seq<Keyed>, i: nat)
    requires i < |items|
    ensures exists r :: 0 <= r < |Runs(items)| && Runs(items)[r].key == items[i].key
  {
    var n := |items| - 1;
    var before, after := Runs(items[..n]), Runs(items);
    if i < n {
      RunsCover(items[..n], i);
      var r :| 0 <= r < |before| && before[r].key == items[i].key;
      assert after[r].key == before[r].key;
    } else {
      assert after[|after| - 1].key == items[n].key;
    }
  }

  /** For items in key order each run summarises precisely the items of its window. */
  lemma {:induction false} RunSummarisesWindow(items: seq<Keyed>, r: nat)
    requires SortedKeys(items)
    requires r < |Runs(items)|
    ensures Summarises(Runs(items)[r].bar, InWindow(items, Runs(items)[r].key))
  {
    hide Summarises;
    var n := |items| - 1;
    var front, x := items[..n], items[n];
    var before, after := Runs(front), Runs(items);
    var m := |before|;
    RunsIncrease(front);
    if after[r].key != x.key {
      assert after[r] == before[r];
      RunSummarisesWindow(front, r);
      assert InWindow(items, after[r].key) == InWindow(front, after[r].key);
    } else if m > 0 && before[m - 1].key == x.key {
      assert r == m - 1;
      RunSummarisesWindow(front, r);
      SummariesJoin(before[r].bar, InWindow(front, x.key), x.bar);
    } else {
      if r < m {
        RunsIncrease(items);
        assert false;
      }
      NoneInWindow(front, x.key);
      assert InWindow(items, x.key) == [x.bar];
      SummaryOfOne(x.bar);
    }
  }

  lemma SummaryOfOne(bar: Ohlcv)
    ensures Summarises(bar, [bar])
  {
    assert Volume([bar]) == Volume([]) + bar.volume;
    assert [bar][0].low == bar.low && [bar][0].high == bar.high;
  }

  lemma NoneInWindow(items: seq<Keyed>, key: int)
    requires forall x :: x in items ==> x.key != key
    ensures InWindow(items, key) == []
  {
  }

  lemma SummariesJoin(bar: Ohlcv, parts: seq<Ohlcv>, x: Ohlcv)
    requires Summarises(bar, parts)
    ensures Summarises(Join(bar, x), parts + [x])
  {
    var all := parts + [x];
    assert all[..|parts|] == parts;
    assert all[|parts|] == x;
    var i :| 0 <= i < |parts| && parts[i].low == bar.low;
    var k :| 0 <= k < |parts| && parts[k].high == bar.high;
    assert all[i].low == bar.low && all[k].high == bar.high;
  }

  /** The results are the non-empty windows of the items: in increasing order, each summarising precisely the
      items of its window, no window with an item left out. */
  ghost predicate EachWindowOnce(results: seq<Keyed>, items: seq<Keyed>) {
    && StrictKeys(results)
    && (forall r :: 0 <= r < |results| ==> Summarises(results[r].bar, InWindow(items, results[r].key)))
    && (forall i :: 0 <= i < |items| ==> exists r :: 0 <= r < |results| && results[r].key == items[i].key)
  }

  lemma RunsOnce(items: seq<Keyed>)
    requires SortedKeys(items)
    ensures EachWindowOnce(Runs(items), items)
  {
    RunsIncrease(items);
    forall r | 0 <= r < |Runs(items)|
      ensures Summarises(Runs(items)[r].bar, InWindow(items, Runs(items)[r].key))
    {
      RunSummarisesWindow(items, r);
    }
    forall i | 0 <= i < |items|
      ensures exists r :: 0 <= r < |Runs(items)| && Runs(items)[r].key == items[i].key
    {
      RunsCover(items, i);
    }
  }
}
