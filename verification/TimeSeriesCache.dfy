/** The in-memory time-series cache: a byte-budgeted ordered map and, kept apart from it and never cleaned, a
    bounded sorted index of time stamps for each (stock, interval). */
module TimeSeriesCache {
  import opened Wrappers
  import opened Sequences

  type Time = int

  const INDEX_LIMIT: nat := 10000
  const BAR_SIZE: nat := 200

  /** A stored value: chart data and minute bars carry their own stamp; anything else is stamped on arrival. */
  datatype Item = ChartData(timestamp: Time, content: string) | MinuteBar(startTime: Time, content: string) | Other(text: string)

  datatype Entry = Entry(data: Item, createdAt: Time, accessedAt: Time, accessCount: nat, ttlSeconds: int)

  /** The (stock, interval) pair an index belongs to. */
  datatype Series = Series(stockCode: string, interval: string)

  datatype Key = Key(series: Series, stamp: Time)

  function StampOf(data: Item, now: Time): Time {
    match data
    case ChartData(t, _) => t
    case MinuteBar(t, _) => t
    case Other(_) => now
  }

  function Size(data: Item): nat {
    match data
    case Other(text) => |text|
    case _ => BAR_SIZE
  }

  predicate Expired(e: Entry, now: Time) {
    now - e.createdAt > e.ttlSeconds
  }

  function Touched(e: Entry, now: Time): Entry {
    e.(accessedAt := now, accessCount := e.accessCount + 1)
  }

  // ---- The byte account ----

  function SizeAt(entries: map<Key, Entry>, key: Key): nat {
    if key in entries then Size(entries[key].data) else 0
  }

  function TotalSize(order: seq<Key>, entries: map<Key, Entry>): nat {
    if order == [] then 0 else SizeAt(entries, order[0]) + TotalSize(order[1..], entries)
  }

  function Without(order: seq<Key>, key: Key): seq<Key> {
    if order == [] then []
    else if order[0] == key then Without(order[1..], key)
    else [order[0]] + Without(order[1..], key)
  }

  /** The keys outside `gone`, in order. */
  function Keep(order: seq<Key>, gone: set<Key>): seq<Key> {
    if order == [] then []
    else if order[0] in gone then Keep(order[1..], gone)
    else [order[0]] + Keep(order[1..], gone)
  }

  function Members(keys: seq<Key>): set<Key> {
    set k | k in keys
  }

  lemma {:induction false} KeepAll(order: seq<Key>)
    ensures Keep(order, {}) == order
  {
    if order != [] {
      KeepAll(order[1..]);
    }
  }

  lemma {:induction false} KeepWithout(order: seq<Key>, gone: set<Key>, key: Key)
    ensures Without(Keep(order, gone), key) == Keep(order, gone + {key})
  {
    if order != [] {
      KeepWithout(order[1..], gone, key);
      var rest := Keep(order[1..], gone);
      assert ([order[0]] + rest)[1..] == rest;
    }
  }

  ghost predicate Distinct(order: seq<Key>) {
    forall i, j :: 0 <= i < j < |order| ==> order[i] != order[j]
  }

  lemma {:induction false} TotalSizeAgrees(order: seq<Key>, a: map<Key, Entry>, b: map<Key, Entry>)
    requires forall k :: k in order ==> SizeAt(a, k) == SizeAt(b, k)
    ensures TotalSize(order, a) == TotalSize(order, b)
  {
    if order != [] {
      TotalSizeAgrees(order[1..], a, b);
    }
  }

  lemma {:induction false} TotalSizeAppend(order: seq<Key>, key: Key, entries: map<Key, Entry>)
    ensures TotalSize(order + [key], entries) == TotalSize(order, entries) + SizeAt(entries, key)
  {
    if order == [] {
      assert [key][1..] == [];
    } else {
      TotalSizeAppend(order[1..], key, entries);
      assert (order + [key])[1..] == order[1..] + [key];
    }
  }

  lemma {:induction false} WithoutMembers(order: seq<Key>, key: Key)
    ensures forall k :: k in Without(order, key) <==> k in order && k != key
    ensures Distinct(order) ==> Distinct(Without(order, key))
    ensures key !in order ==> Without(order, key) == order
  {
    if order != [] {
      var first, rest := order[0], order[1..];
      WithoutMembers(rest, key);
      assert order == [first] + rest;
      if Distinct(order) && first != key {
        assert first !in Without(rest, key) by {
          assert forall j :: 0 <= j < |rest| ==> rest[j] == order[j + 1];
        }
      }
    }
  }

  /** Removing one key from the order removes exactly its size. */
  lemma {:induction false} TotalSizeWithout(order: seq<Key>, key: Key, entries: map<Key, Entry>)
    requires Distinct(order) && key in order
    ensures TotalSize(Without(order, key), entries) == TotalSize(order, entries) - SizeAt(entries, key)
  {
    var rest := order[1..];
    if order[0] == key {
      assert key !in rest;
      WithoutMembers(rest, key);
    } else {
      TotalSizeWithout(rest, key, entries);
      assert Without(order, key)[1..] == Without(rest, key);
    }
  }

  /** How many of the oldest entries go before `need` more bytes fit. */
  function EvictCount(order: seq<Key>, entries: map<Key, Entry>, need: nat, maxSize: nat): (n: nat)
    ensures n <= |order|
  {
    if TotalSize(order, entries) + need <= maxSize || order == [] then 0
    else 1 + EvictCount(order[1..], entries, need, maxSize)
  }

  /** The evicted prefix makes room whenever the item alone fits, and no shorter prefix does; an item that
      does not fit alone evicts everything. */
  lemma {:induction false} EvictionIsLeast(order: seq<Key>, entries: map<Key, Entry>, need: nat, maxSize: nat)
    ensures var n := EvictCount(order, entries, need, maxSize);
      && (need <= maxSize ==> TotalSize(order[n..], entries) + need <= maxSize)
      && (need > maxSize ==> n == |order|)
      && (forall m :: 0 <= m < n ==> TotalSize(order[m..], entries) + need > maxSize)
  {
    if TotalSize(order, entries) + need > maxSize && order != [] {
      EvictionIsLeast(order[1..], entries, need, maxSize);
      var n := EvictCount(order[1..], entries, need, maxSize);
      assert order[1..][n..] == order[1 + n..];
      forall m | 0 <= m < 1 + n
        ensures TotalSize(order[m..], entries) + need > maxSize
      {
        if m > 0 {
          assert order[1..][m - 1..] == order[m..];
        } else {
          assert order[0..] == order;
        }
      }
    } else {
      assert order[0..] == order;
    }
  }

  // ---- The time index ----

  /** `index` is the sorted list of the INDEX_LIMIT largest of the stamps `all` (of all of them while they are
      fewer). */
  ghost predicate LargestOf(index: seq<Time>, all: set<Time>) {
    && Increasing(index)
    && |index| <= INDEX_LIMIT
    && (forall i :: 0 <= i < |index| ==> index[i] in all)
    && (forall t :: t in all && t !in index ==> |index| == INDEX_LIMIT && t < index[0])
  }

  /** The index is determined by the set of stamps. */
  lemma {:induction false} LargestUnique(a: seq<Time>, b: seq<Time>, all: set<Time>)
    requires LargestOf(a, all) && LargestOf(b, all)
    ensures a == b
  {
    forall t | t in a
      ensures t in b
    {
      MemberOfBoth(a, b, all, t);
    }
    forall t | t in b
      ensures t in a
    {
      MemberOfBoth(b, a, all, t);
    }
    SortedEqual(a, b);
  }

  lemma MemberOfBoth(a: seq<Time>, b: seq<Time>, all: set<Time>, t: Time)
    requires LargestOf(a, all) && LargestOf(b, all) && t in a
    ensures t in b
  {
    if t !in b {
      assert |b| == INDEX_LIMIT && t < b[0];
      var more := [t] + b;
      var i :| 0 <= i < |a| && a[i] == t;
      forall x | x in b
        ensures x in a
      {
        var j :| 0 <= j < |b| && b[j] == x;
        assert a[0] <= a[i] < b[0] <= b[j];
      }
      NoMoreThan(more, a);
    }
  }

  lemma {:induction false} SortedEqual(a: seq<Time>, b: seq<Time>)
    requires Increasing(a) && Increasing(b)
    requires forall t :: t in a <==> t in b
    ensures a == b
  {
    NoMoreThan(a, b);
    NoMoreThan(b, a);
    if a != [] {
      var n := |a| - 1;
      assert a[n] in b && b[n] in a;
      assert a[n] == b[n];
      forall t
        ensures t in a[..n] <==> t in b[..n]
      {
        assert t in a[..n] <==> t in a && t != a[n];
        assert t in b[..n] <==> t in b && t != b[n];
      }
      SortedEqual(a[..n], b[..n]);
      assert a == a[..n] + [a[n]] && b == b[..n] + [b[n]];
    }
  }

  function Last(stamps: seq<Time>, limit: nat): seq<Time> {
    if |stamps| > limit then stamps[|stamps| - limit..] else stamps
  }

  /** Putting a new stamp at its sorted place and keeping the last INDEX_LIMIT keeps the index right. */
  lemma InsertKeepsLargest(index: seq<Time>, all: set<Time>, at: nat, t: Time)
    requires LargestOf(index, all) && t !in index && at <= |index|
    requires forall i :: 0 <= i < at ==> index[i] < t
    requires at < |index| ==> t < index[at]
    ensures LargestOf(Last(index[..at] + [t] + index[at..], INDEX_LIMIT), all + {t})
  {
    var full := index[..at] + [t] + index[at..];
    InsertedIncreasing(index, at, t);
    assert |index| == 0 || full[0] <= index[0];
    forall x | x in all + {t} && x !in full
      ensures |full| >= INDEX_LIMIT && x < full[|full| - INDEX_LIMIT]
    {
      InsertedMembers(index, at, t, x);
      assert full[1] == if at == 0 then index[0] else if at == 1 then t else index[1];
    }
    forall i | 0 <= i < |full|
      ensures full[i] in all + {t}
    {
      assert full[i] == if i < at then index[i] else if i == at then t else index[i - 1];
    }
    LastKeepsLargest(full, all + {t});
  }

  lemma InsertedIncreasing(index: seq<Time>, at: nat, t: Time)
    requires Increasing(index) && at <= |index|
    requires forall i :: 0 <= i < at ==> index[i] < t
    requires at < |index| ==> t < index[at]
    ensures Increasing(index[..at] + [t] + index[at..])
  {
    var full := index[..at] + [t] + index[at..];
    forall i, j | 0 <= i < j < |full|
      ensures full[i] < full[j]
    {
      assert full[i] == if i < at then index[i] else if i == at then t else index[i - 1];
      assert full[j] == if j < at then index[j] else if j == at then t else index[j - 1];
    }
  }

  lemma InsertedMembers(index: seq<Time>, at: nat, t: Time, x: Time)
    requires at <= |index|
    ensures x in index[..at] + [t] + index[at..] <==> x in index || x == t
  {
    assert index == index[..at] + index[at..];
  }

  /** A sorted list that misses only stamps below all of its own, and those only when full, stays so when cut
      back to its last INDEX_LIMIT stamps. */
  lemma LastKeepsLargest(full: seq<Time>, all: set<Time>)
    requires Increasing(full)
    requires forall i :: 0 <= i < |full| ==> full[i] in all
    requires forall x :: x in all && x !in full ==> |full| >= INDEX_LIMIT && x < full[|full| - INDEX_LIMIT]
    ensures LargestOf(Last(full, INDEX_LIMIT), all)
  {
    var kept, cut := Last(full, INDEX_LIMIT), if |full| > INDEX_LIMIT then |full| - INDEX_LIMIT else 0;
    assert kept == full[cut..];
    assert forall j :: cut <= j < |full| ==> kept[j - cut] == full[j];
    forall x | x in all && x !in kept
      ensures |kept| == INDEX_LIMIT && x < kept[0]
    {
      if x in full {
        var i :| 0 <= i < |full| && full[i] == x;
        assert i < cut;
      }
    }
  }

  lemma EmptyIndex()
    ensures LargestOf([], {})
  {
  }

  /** A stamp listed already changes nothing; otherwise it goes to its sorted place, and a full index drops its
      smallest stamp. */
  method InsertStamp(stamps: seq<Time>, stamp: Time, ghost all: set<Time>) returns (updated: seq<Time>)
    requires LargestOf(stamps, all)
    ensures LargestOf(updated, all + {stamp})
    ensures stamp in stamps ==> updated == stamps
  {
    hide LargestOf, Last;
    if stamp in stamps {
      ListedAlready(stamps, all, stamp);
      return stamps;
    }
    var i := 0;
    while i < |stamps|
      invariant 0 <= i <= |stamps|
      invariant forall j :: 0 <= j < i ==> stamps[j] < stamp
    {
      if stamps[i] > stamp {
        InsertKeepsLargest(stamps, all, i, stamp);
        return Last(stamps[..i] + [stamp] + stamps[i..], INDEX_LIMIT);
      }
      i := i + 1;
    }
    InsertKeepsLargest(stamps, all, |stamps|, stamp);
    assert stamps + [stamp] == stamps[..|stamps|] + [stamp] + stamps[|stamps|..];
    return Last(stamps + [stamp], INDEX_LIMIT);
  }

  lemma ListedAlready(index: seq<Time>, all: set<Time>, t: Time)
    requires LargestOf(index, all) && t in index
    ensures all + {t} == all
  {
  }

  // ---- Range queries ----

  predicate Within(t: Time, from: Option<Time>, to: Option<Time>) {
    (from.Some? ==> from.value <= t) && (to.Some? ==> t <= to.value)
  }

  function InRange(stamps: seq<Time>, from: Option<Time>, to: Option<Time>): seq<Time> {
    if stamps == [] then []
    else
      var n := |stamps| - 1;
      var earlier := InRange(stamps[..n], from, to);
      if Within(stamps[n], from, to) then earlier + [stamps[n]] else earlier
  }

  /** The number of stamps a limit lets through: 0 counts as no limit, and a negative one still lets one through. */
  function Allowance(limit: Option<int>): Option<nat> {
    if limit == None || limit == Some(0) then None
    else Some(if limit.value > 1 then limit.value else 1)
  }

  function Limited(stamps: seq<Time>, limit: Option<int>): seq<Time> {
    var allowance := Allowance(limit);
    if allowance.Some? && allowance.value < |stamps| then stamps[..allowance.value] else stamps
  }

  /** A limit of n keeps the first n stamps, or all when there are fewer; none and 0 keep all, and a negative one keeps
      one. */
  lemma LimitKeepsFirst(stamps: seq<Time>, limit: Option<int>)
    ensures var kept := Limited(stamps, limit);
      && kept <= stamps
      && (limit == None || limit == Some(0) ==> kept == stamps)
      && (limit.Some? && limit.value > 0 ==> |kept| == if limit.value <= |stamps| then limit.value else |stamps|)
      && (limit.Some? && limit.value < 0 ==> |kept| == if 1 <= |stamps| then 1 else 0)
  {
  }

  function Live(stamps: seq<Time>, series: Series, entries: map<Key, Entry>, now: Time): seq<Time> {
    if stamps == [] then []
    else
      var n := |stamps| - 1;
      var earlier := Live(stamps[..n], series, entries, now);
      var key := Key(series, stamps[n]);
      if key in entries && !Expired(entries[key], now) then earlier + [stamps[n]] else earlier
  }

  /** What a range query answers, as stamps in answer order. */
  function Answer(index: seq<Time>, series: Series, entries: map<Key, Entry>, now: Time,
                  from: Option<Time>, to: Option<Time>, limit: Option<int>): seq<Time> {
    Live(Limited(InRange(index, from, to), limit), series, entries, now)
  }

  lemma {:induction false} InRangeExact(stamps: seq<Time>, from: Option<Time>, to: Option<Time>)
    requires Increasing(stamps)
    ensures Increasing(InRange(stamps, from, to))
    ensures forall t :: t in InRange(stamps, from, to) <==> t in stamps && Within(t, from, to)
  {
    if stamps != [] {
      var n := |stamps| - 1;
      InRangeExact(stamps[..n], from, to);
      assert stamps == stamps[..n] + [stamps[n]];
      BelowLast(stamps, InRange(stamps[..n], from, to));
    }
  }

  lemma {:induction false} LiveExact(stamps: seq<Time>, series: Series, entries: map<Key, Entry>, now: Time)
    requires Increasing(stamps)
    ensures var live := Live(stamps, series, entries, now);
      && Increasing(live)
      && (forall t :: t in live <==>
            t in stamps && Key(series, t) in entries && !Expired(entries[Key(series, t)], now))
  {
    if stamps != [] {
      var n := |stamps| - 1;
      LiveExact(stamps[..n], series, entries, now);
      assert stamps == stamps[..n] + [stamps[n]];
      BelowLast(stamps, Live(stamps[..n], series, entries, now));
    }
  }

  lemma BelowLast(stamps: seq<Time>, part: seq<Time>)
    requires stamps != [] && Increasing(stamps) && Increasing(part)
    requires forall t :: t in part ==> t in stamps[..|stamps| - 1]
    ensures Increasing(part + [stamps[|stamps| - 1]])
  {
    forall i | 0 <= i < |part|
      ensures part[i] < stamps[|stamps| - 1]
    {
      assert part[i] in part;
    }
  }

  /** While no more stamps were stored than the index holds, it lists them all. */
  lemma AllListed(index: seq<Time>, all: set<Time>)
    requires LargestOf(index, all)
    ensures |all| <= INDEX_LIMIT ==> forall t :: t in all ==> t in index
  {
    if t :| t in all && t !in index {
      var listed := set x | x in index;
      Cardinality(index);
      forall x | x in listed + {t}
        ensures x in all
      {
      }
      SubsetSize(listed + {t}, all);
    }
  }

  /** An unlimited query answers, in time order and once each, exactly the stored, unexpired stamps in range
      that the index still lists; a stored stamp is missed only when INDEX_LIMIT later ones were stored, and none while
      no more than INDEX_LIMIT were. */
  lemma UnlimitedAnswer(index: seq<Time>, all: set<Time>, series: Series, entries: map<Key, Entry>, now: Time,
                        from: Option<Time>, to: Option<Time>, limit: Option<int>)
    requires LargestOf(index, all)
    requires forall key :: key in entries && key.series == series ==> key.stamp in all
    requires limit == None || limit == Some(0)
    ensures var answer := Answer(index, series, entries, now, from, to, limit);
      && Increasing(answer)
      && (forall t :: t in answer <==> t in index && Within(t, from, to)
                                       && Key(series, t) in entries && !Expired(entries[Key(series, t)], now))
      && (forall t :: Key(series, t) in entries && t !in index ==> |index| == INDEX_LIMIT && t < index[0])
      && (|all| <= INDEX_LIMIT ==> forall t :: t in all ==> t in index)
  {
    AllListed(index, all);
    InRangeExact(index, from, to);
    LiveExact(InRange(index, from, to), series, entries, now);
  }

  lemma {:induction false} InRangePrefix(stamps: seq<Time>, i: nat, from: Option<Time>, to: Option<Time>)
    requires i <= |stamps|
    ensures InRange(stamps[..i], from, to) <= InRange(stamps, from, to)
  {
    if i < |stamps| {
      var n := |stamps| - 1;
      InRangePrefix(stamps[..n], i, from, to);
      assert stamps[..n][..i] == stamps[..i];
    } else {
      assert stamps[..i] == stamps;
    }
  }

  function ItemsAt(stamps: seq<Time>, series: Series, entries: map<Key, Entry>): seq<Item>
    requires forall t :: t in stamps ==> Key(series, t) in entries
  {
    seq(|stamps|, i requires 0 <= i < |stamps| => entries[Key(series, stamps[i])].data)
  }

  /** The entries after a query has touched those it answered with. */
  function TouchAll(entries: map<Key, Entry>, series: Series, live: seq<Time>, now: Time): map<Key, Entry> {
    map k | k in entries :: if k.series == series && k.stamp in live then Touched(entries[k], now) else entries[k]
  }

  lemma LiveNone(series: Series, entries: map<Key, Entry>, now: Time)
    ensures Live([], series, entries, now) == [] && ItemsAt([], series, entries) == []
    ensures TouchAll(entries, series, [], now) == entries
  {
  }

  lemma LiveStep(stamps: seq<Time>, t: Time, series: Series, entries: map<Key, Entry>, now: Time)
    ensures Live(stamps + [t], series, entries, now) ==
            if Key(series, t) in entries && !Expired(entries[Key(series, t)], now)
            then Live(stamps, series, entries, now) + [t] else Live(stamps, series, entries, now)
  {
    assert (stamps + [t])[..|stamps|] == stamps;
  }

  lemma ItemsStep(stamps: seq<Time>, t: Time, series: Series, entries: map<Key, Entry>)
    requires forall x :: x in stamps ==> Key(series, x) in entries
    requires Key(series, t) in entries
    ensures ItemsAt(stamps + [t], series, entries) == ItemsAt(stamps, series, entries) + [entries[Key(series, t)].data]
  {
  }

  lemma TouchStep(entries: map<Key, Entry>, series: Series, live: seq<Time>, t: Time, now: Time)
    requires t !in live
    ensures var after := TouchAll(entries, series, live, now); var key := Key(series, t);
      && (key in after <==> key in entries)
      && (key in entries ==> after[key] == entries[key]
                             && TouchAll(entries, series, live + [t], now) == after[key := Touched(entries[key], now)])
  {
  }

  lemma TouchKeepsData(entries: map<Key, Entry>, series: Series, live: seq<Time>, now: Time)
    ensures var after := TouchAll(entries, series, live, now);
      after.Keys == entries.Keys && forall k :: k in entries ==> after[k].data == entries[k].data
  {
  }

  lemma FilteredDistinct(index: seq<Time>, all: set<Time>, from: Option<Time>, to: Option<Time>, limit: Option<int>)
    requires LargestOf(index, all)
    ensures Increasing(Limited(InRange(index, from, to), limit))
  {
    InRangeExact(index, from, to);
  }

  lemma EmptyAnswer(from: Option<Time>, to: Option<Time>, limit: Option<int>)
    ensures Limited(InRange([], from, to), limit) == []
  {
  }

  // ---- The cache ----

  ghost predicate Accounted(order: seq<Key>, entries: map<Key, Entry>, sizeBytes: int, maxSize: nat) {
    && Distinct(order)
    && (forall k :: k in order <==> k in entries)
    && sizeBytes == TotalSize(order, entries)
    && sizeBytes <= maxSize
  }

  ghost predicate Indexed(timeIndex: map<Series, seq<Time>>, stored: map<Series, set<Time>>) {
    && timeIndex.Keys == stored.Keys
    && (forall s :: s in stored ==> LargestOf(timeIndex[s], stored[s]))
  }

  ghost predicate Covered(entries: map<Key, Entry>, stored: map<Series, set<Time>>) {
    forall k :: k in entries ==> k.series in stored && k.stamp in stored[k.series]
  }

  function StoredAt(stored: map<Series, set<Time>>, series: Series): set<Time> {
    if series in stored then stored[series] else {}
  }

  function IndexAt(timeIndex: map<Series, seq<Time>>, series: Series): seq<Time> {
    if series in timeIndex then timeIndex[series] else []
  }

  function Restrict(entries: map<Key, Entry>, order: seq<Key>): map<Key, Entry> {
    map k | k in entries && k in order :: entries[k]
  }

  lemma RemoveAccounted(order: seq<Key>, entries: map<Key, Entry>, sizeBytes: int, maxSize: nat, key: Key)
    requires Accounted(order, entries, sizeBytes, maxSize) && key in entries
    ensures Accounted(Without(order, key), entries - {key}, sizeBytes - Size(entries[key].data), maxSize)
  {
    WithoutMembers(order, key);
    TotalSizeWithout(order, key, entries);
    TotalSizeAgrees(Without(order, key), entries, entries - {key});
  }

  lemma EmptySize(entries: map<Key, Entry>)
    ensures TotalSize([], entries) == 0
  {
  }

  lemma RestrictMembers(entries: map<Key, Entry>, order: seq<Key>)
    ensures forall k :: k in Restrict(entries, order) ==> k in entries && k in order
    ensures order == [] ==> Restrict(entries, order) == map[]
  {
  }

  lemma OrderIsKeys(order: seq<Key>, entries: map<Key, Entry>, sizeBytes: int, maxSize: nat)
    requires Accounted(order, entries, sizeBytes, maxSize)
    ensures forall k :: k in order <==> k in entries
    ensures forall key :: key in entries ==> sizeBytes - Size(entries[key].data) >= 0
  {
    forall key | key in entries
      ensures sizeBytes - Size(entries[key].data) >= 0
    {
      TotalSizeWithout(order, key, entries);
    }
  }

  lemma RestrictTwice(entries: map<Key, Entry>, order: seq<Key>, rest: seq<Key>)
    requires order != [] && rest == order[1..]
    ensures Restrict(Restrict(entries, order), rest) == Restrict(entries, rest)
  {
    assert order == [order[0]] + rest;
  }

  lemma EvictAccounted(order: seq<Key>, entries: map<Key, Entry>, sizeBytes: int, maxSize: nat)
    requires Accounted(order, entries, sizeBytes, maxSize) && order != []
    ensures order[0] in entries && Without(order, order[0]) == order[1..]
    ensures entries - {order[0]} == Restrict(entries, order[1..])
  {
    var key, rest := order[0], order[1..];
    assert order == [key] + rest;
    assert key !in rest by {
      assert forall j :: 0 <= j < |rest| ==> rest[j] == order[j + 1];
    }
    WithoutMembers(rest, key);
    assert forall k :: k in rest <==> k in order && k != key;
  }

  lemma SameSizesAccounted(order: seq<Key>, a: map<Key, Entry>, b: map<Key, Entry>, sizeBytes: int, maxSize: nat)
    requires Accounted(order, a, sizeBytes, maxSize) && a.Keys == b.Keys
    requires forall k :: k in a ==> b[k].data == a[k].data
    ensures Accounted(order, b, sizeBytes, maxSize)
  {
    TotalSizeAgrees(order, a, b);
  }

  lemma MoveToEndAccounted(order: seq<Key>, entries: map<Key, Entry>, sizeBytes: int, maxSize: nat, key: Key)
    requires Accounted(order, entries, sizeBytes, maxSize) && key in entries
    ensures Accounted(Without(order, key) + [key], entries, sizeBytes, maxSize)
  {
    WithoutMembers(order, key);
    TotalSizeWithout(order, key, entries);
    TotalSizeAppend(Without(order, key), key, entries);
  }

  lemma ReplaceAccounted(order: seq<Key>, entries: map<Key, Entry>, sizeBytes: int, maxSize: nat, key: Key, e: Entry)
    requires Accounted(order, entries, sizeBytes, maxSize) && key in entries
    requires sizeBytes - Size(entries[key].data) + Size(e.data) <= maxSize
    ensures Accounted(order, entries[key := e], sizeBytes - Size(entries[key].data) + Size(e.data), maxSize)
  {
    TotalSizeReplace(order, entries, key, e);
  }

  lemma AppendAccounted(order: seq<Key>, entries: map<Key, Entry>, sizeBytes: int, maxSize: nat, key: Key, e: Entry)
    requires Accounted(order, entries, sizeBytes, maxSize) && key !in entries
    requires sizeBytes + Size(e.data) <= maxSize
    ensures Accounted(order + [key], entries[key := e], sizeBytes + Size(e.data), maxSize)
  {
    TotalSizeAgrees(order, entries, entries[key := e]);
    TotalSizeAppend(order, key, entries[key := e]);
  }

  lemma {:induction false} TotalSizeReplace(order: seq<Key>, entries: map<Key, Entry>, key: Key, e: Entry)
    requires Distinct(order) && key in order && key in entries
    ensures TotalSize(order, entries[key := e]) ==
            TotalSize(order, entries) - Size(entries[key].data) + Size(e.data)
  {
    var rest := order[1..];
    if order[0] == key {
      assert forall j :: 0 <= j < |rest| ==> rest[j] == order[j + 1];
      TotalSizeAgrees(rest, entries, entries[key := e]);
    } else {
      TotalSizeReplace(rest, entries, key, e);
    }
  }

  /** What is stored: the eviction order, the entries, and every stamp put since the last clear. */
  datatype Contents = Contents(order: seq<Key>, entries: map<Key, Entry>, stored: map<Series, set<Time>>)

  /** Storing one item: the oldest entries go until it fits, an overwritten key keeps its place, a new one is newest; an
      item that can never fit empties the cache. */
  function Stored(c: Contents, series: Series, data: Item, ttlSeconds: Option<int>, now: Time, maxSize: nat,
                  defaultTtl: int): Contents {
    var kept := c.order[EvictCount(c.order, c.entries, Size(data), maxSize)..];
    var key := Key(series, StampOf(data, now));
    var ttl := if ttlSeconds == None || ttlSeconds == Some(0) then defaultTtl else ttlSeconds.value;
    if Size(data) <= maxSize
    then Contents(if key in kept then kept else kept + [key],
                  Restrict(c.entries, kept)[key := Entry(data, now, now, 0, ttl)],
                  c.stored[series := StoredAt(c.stored, series) + {key.stamp}])
    else Contents([], map[], c.stored)
  }

  function StoredAll(c: Contents, series: Series, items: seq<Item>, ttlSeconds: Option<int>, now: Time, maxSize: nat,
                     defaultTtl: int): Contents {
    if items == [] then c
    else
      var n := |items| - 1;
      Stored(StoredAll(c, series, items[..n], ttlSeconds, now, maxSize, defaultTtl), series, items[n], ttlSeconds, now,
             maxSize, defaultTtl)
  }

  // ---- Runs: what is answered, going by the puts ----

  datatype Event =
    | PutOne(series: Series, data: Item, ttlSeconds: Option<int>, now: Time)
    | GetOne(series: Series, stamp: Time, now: Time)
    | Query(series: Series, stamps: seq<Time>, now: Time)
    | Cleanup(now: Time)
    | ClearAll

  datatype Limits = Limits(maxSize: nat, defaultTtl: int)

  function Got(c: Contents, key: Key, now: Time): Contents {
    if key in c.entries && !Expired(c.entries[key], now)
    then c.(entries := c.entries[key := Touched(c.entries[key], now)], order := Without(c.order, key) + [key])
    else c.(entries := c.entries - {key}, order := Without(c.order, key))
  }

  function Cleaned(c: Contents, now: Time): Contents {
    c.(entries := map k | k in c.entries && !Expired(c.entries[k], now) :: c.entries[k],
       order := Keep(c.order, set k | k in c.entries && Expired(c.entries[k], now)))
  }

  /** One operation; a query is given the stamps it looks up. */
  function After(c: Contents, e: Event, limits: Limits): Contents {
    match e
    case PutOne(series, data, ttlSeconds, now) => Stored(c, series, data, ttlSeconds, now, limits.maxSize, limits.defaultTtl)
    case GetOne(series, stamp, now) => Got(c, Key(series, stamp), now)
    case Query(series, stamps, now) =>
      c.(entries := TouchAll(c.entries, series, Live(stamps, series, c.entries, now), now))
    case Cleanup(now) => Cleaned(c, now)
    case ClearAll => Contents([], map[], map[])
  }

  function Run(events: seq<Event>, limits: Limits): Contents {
    if events == [] then Contents([], map[], map[])
    else After(Run(events[..|events| - 1], limits), events[|events| - 1], limits)
  }

  /** What a single-stamp query answers. */
  function AnswerAt(c: Contents, key: Key, now: Time): Option<Item> {
    if key in c.entries && !Expired(c.entries[key], now) then Some(c.entries[key].data) else None
  }

  /** A value as it was put: when, and to live how long. */
  datatype Record = Record(data: Item, at: Time, ttl: int)

  /** The event stores something under the key. */
  predicate Writes(e: Event, key: Key, limits: Limits) {
    e.PutOne? && Key(e.series, StampOf(e.data, e.now)) == key && Size(e.data) <= limits.maxSize
  }

  function Written(e: Event, limits: Limits): Record
    requires e.PutOne?
  {
    Record(e.data, e.now, match e.ttlSeconds case None => limits.defaultTtl case Some(d) => if d == 0 then limits.defaultTtl else d)
  }

  predicate Outlived(r: Record, now: Time) {
    now - r.at > r.ttl
  }

  /** The keys a put evicts. */
  function Evicted(c: Contents, e: Event, limits: Limits): seq<Key>
    requires e.PutOne?
  {
    c.order[..EvictCount(c.order, c.entries, Size(e.data), limits.maxSize)]
  }

  /** The event ends the stay of what was put under the key: a put evicts it, a single-stamp query or a cleanup finds it
      has outlived its time, or everything is cleared. */
  predicate Ends(c: Contents, e: Event, key: Key, r: Record, limits: Limits) {
    match e
    case PutOne(_, _, _, _) => key in Evicted(c, e, limits)
    case GetOne(series, stamp, now) => Key(series, stamp) == key && Outlived(r, now)
    case Query(_, _, _) => false
    case Cleanup(now) => Outlived(r, now)
    case ClearAll => true
  }

  /** What was put last under the key, unless something has ended its stay since. */
  function InForce(events: seq<Event>, key: Key, limits: Limits): Option<Record> {
    if events == [] then None
    else
      var n := |events| - 1;
      var before := InForce(events[..n], key, limits);
      if Writes(events[n], key, limits) then Some(Written(events[n], limits))
      else if before.Some? && !Ends(Run(events[..n], limits), events[n], key, before.value, limits) then before
      else None
  }

  /** What is stored under the key is this record, and nothing is when there is none. */
  ghost predicate Keeps(c: Contents, key: Key, record: Option<Record>) {
    match record
    case None => key !in c.entries
    case Some(r) =>
      key in c.entries && c.entries[key].data == r.data && c.entries[key].createdAt == r.at && c.entries[key].ttlSeconds == r.ttl
  }

  /** The order lists the stored keys, once each. */
  ghost predicate Ordered(c: Contents) {
    Distinct(c.order) && forall k :: k in c.order <==> k in c.entries
  }

  lemma KeepMembers(order: seq<Key>, gone: set<Key>)
    ensures forall k :: k in Keep(order, gone) <==> k in order && k !in gone
    ensures Distinct(order) ==> Distinct(Keep(order, gone))
  {
    if order != [] {
      var first, rest := order[0], order[1..];
      KeepMembers(rest, gone);
      assert order == [first] + rest;
      if Distinct(order) {
        assert first !in rest by {
          assert forall j :: 0 <= j < |rest| ==> rest[j] == order[j + 1];
        }
      }
    }
  }

  /** Cutting the oldest keys off leaves exactly the others. */
  lemma CutMembers(order: seq<Key>, n: nat)
    requires Distinct(order) && n <= |order|
    ensures Distinct(order[n..])
    ensures forall k :: k in order[n..] <==> k in order && k !in order[..n]
  {
    assert order == order[..n] + order[n..];
    forall k | k in order[n..]
      ensures k !in order[..n]
    {
      var j :| 0 <= j < |order[n..]| && order[n..][j] == k;
      assert order[n + j] == k;
    }
  }

  /** What a put leaves of the order, and which keys it leaves stored. */
  lemma StoredShape(c: Contents, e: Event, limits: Limits, kept: seq<Key>)
    requires e.PutOne? && kept == c.order[|Evicted(c, e, limits)|..]
    ensures var after, key := After(c, e, limits), Key(e.series, StampOf(e.data, e.now));
      if Size(e.data) <= limits.maxSize
      then after.order == (if key in kept then kept else kept + [key])
           && (forall k :: k in after.entries <==> (k in c.entries && k in kept) || k == key)
           && forall k :: k in after.entries && k != key ==> after.entries[k] == c.entries[k]
      else after.order == [] && after.entries == map[]
  {
    hide EvictCount, Size, StampOf;
  }

  lemma StoredOrdered(c: Contents, e: Event, limits: Limits)
    requires Ordered(c) && e.PutOne?
    ensures Ordered(After(c, e, limits))
  {
    var n, key := |Evicted(c, e, limits)|, Key(e.series, StampOf(e.data, e.now));
    var kept, after := c.order[n..], After(c, e, limits);
    StoredShape(c, e, limits, kept);
    CutMembers(c.order, n);
    hide After, Evicted, Distinct, Size, StampOf;
    NoKeysDistinct();
    if key !in kept {
      AppendDistinct(kept, key);
    }
    forall k: Key
      ensures k in after.order <==> k in after.entries
    {
      assert k in kept ==> k in c.order && k in c.entries;
      assert k in kept + [key] <==> k in kept || k == key;
    }
  }

  lemma NoKeysDistinct()
    ensures Distinct([])
  {
  }

  lemma AppendDistinct(order: seq<Key>, key: Key)
    requires Distinct(order) && key !in order
    ensures Distinct(order + [key])
  {
  }

  lemma OrderedStep(c: Contents, e: Event, limits: Limits)
    requires Ordered(c)
    ensures Ordered(After(c, e, limits))
  {
    match e
    case PutOne(_, _, _, _) =>
      StoredOrdered(c, e, limits);
    case GetOne(series, stamp, _) =>
      WithoutMembers(c.order, Key(series, stamp));
      hide Distinct, Without;
      AppendDistinct(Without(c.order, Key(series, stamp)), Key(series, stamp));
    case Query(_, _, _) =>
    case Cleanup(now) =>
      KeepMembers(c.order, set k | k in c.entries && Expired(c.entries[k], now));
    case ClearAll =>
  }

  lemma KeepsStep(c: Contents, e: Event, key: Key, record: Option<Record>, limits: Limits)
    requires Ordered(c) && Keeps(c, key, record)
    ensures Keeps(After(c, e, limits), key,
                  if Writes(e, key, limits) then Some(Written(e, limits))
                  else if record.Some? && !Ends(c, e, key, record.value, limits) then record else None)
  {
    hide Distinct, Without, Keep, EvictCount, Size, StampOf;
    if e.PutOne? {
      PutKeeps(c, e, key, record, limits);
    }
  }

  lemma PutKeeps(c: Contents, e: Event, key: Key, record: Option<Record>, limits: Limits)
    requires Ordered(c) && Keeps(c, key, record) && e.PutOne?
    ensures Keeps(After(c, e, limits), key,
                  if Writes(e, key, limits) then Some(Written(e, limits))
                  else if record.Some? && !Ends(c, e, key, record.value, limits) then record else None)
  {
    if Writes(e, key, limits) {
      PutWrites(c, e, key, limits);
    } else {
      var n := |Evicted(c, e, limits)|;
      EvictionIsLeast(c.order, c.entries, Size(e.data), limits.maxSize);
      StoredShape(c, e, limits, c.order[n..]);
      CutMembers(c.order, n);
      assert c.order[..n] == Evicted(c, e, limits);
      assert n == |c.order| ==> c.order[..n] == c.order;
      hide Distinct, Evicted, After, Size, StampOf;
    }
  }

  lemma PutWrites(c: Contents, e: Event, key: Key, limits: Limits)
    requires Writes(e, key, limits)
    ensures Keeps(After(c, e, limits), key, Some(Written(e, limits)))
  {
    hide EvictCount, Size, StampOf;
  }

  /** Main result: after any run of puts, queries, cleanups and clears, what is stored under a key is what was put there
      last, with the time and lifetime of that put, exactly while nothing has ended its stay; reading changes neither. */
  lemma {:induction false} HoldsWhatWasPut(events: seq<Event>, key: Key, limits: Limits)
    ensures Keeps(Run(events, limits), key, InForce(events, key, limits)) && Ordered(Run(events, limits))
  {
    hide After, Keeps, Ordered, Ends, Writes;
    if events == [] {
      NothingKept(key);
    } else {
      var n := |events| - 1;
      HoldsWhatWasPut(events[..n], key, limits);
      OrderedStep(Run(events[..n], limits), events[n], limits);
      KeepsStep(Run(events[..n], limits), events[n], key, InForce(events[..n], key, limits), limits);
    }
  }

  lemma NothingKept(key: Key)
    ensures Keeps(Contents([], map[], map[]), key, None) && Ordered(Contents([], map[], map[]))
  {
  }

  /** After any run a single-stamp query answers a value exactly when it is the one in force under the key and its
      lifetime, counted from its put, is not over. */
  lemma AnswersIff(events: seq<Event>, key: Key, now: Time, limits: Limits, data: Item)
    ensures var r := InForce(events, key, limits);
      AnswerAt(Run(events, limits), key, now) == Some(data) <==> r.Some? && r.value.data == data && now - r.value.at <= r.value.ttl
  {
    HoldsWhatWasPut(events, key, limits);
    hide Run, InForce;
  }

  /** After any run a range query answers those of the stamps it looks up, in order, whose value is in force and has not
      outlived its lifetime, counted from its put. */
  lemma QueryAnswersIff(events: seq<Event>, series: Series, stamps: seq<Time>, now: Time, limits: Limits)
    requires Increasing(stamps)
    ensures var c := Run(events, limits); var live := Live(stamps, series, c.entries, now);
      && Increasing(live)
      && (forall t :: t in live <==>
            t in stamps && var r := InForce(events, Key(series, t), limits); r.Some? && now - r.value.at <= r.value.ttl)
      && (forall t :: t in live ==> Key(series, t) in c.entries
                                    && InForce(events, Key(series, t), limits).Some?
                                    && c.entries[Key(series, t)].data == InForce(events, Key(series, t), limits).value.data)
  {
    var c := Run(events, limits);
    LiveExact(stamps, series, c.entries, now);
    hide Run, InForce, Live;
    forall t: Time
      ensures Keeps(c, Key(series, t), InForce(events, Key(series, t), limits))
    {
      HoldsWhatWasPut(events, Key(series, t), limits);
    }
  }

  // ---- Runs: what is evicted, going by the uses ----

  /** The event counts as a use of the key: a single-stamp query that answers it, or a put that brings it in. Overwriting
      it where it stands and reading it in a range do not count. */
  predicate Uses(events: seq<Event>, e: Event, key: Key, limits: Limits) {
    var r := InForce(events, key, limits);
    match e
    case GetOne(series, stamp, now) => Key(series, stamp) == key && r.Some? && now - r.value.at <= r.value.ttl
    case PutOne(_, _, _, _) => Writes(e, key, limits) && (r == None || key in Evicted(Run(events, limits), e, limits))
    case _ => false
  }

  /** The number of the event that used the key last; 0 when none has. */
  function LastUse(events: seq<Event>, key: Key, limits: Limits): nat {
    if events == [] then 0
    else
      var n := |events| - 1;
      if Uses(events[..n], events[n], key, limits) then |events| else LastUse(events[..n], key, limits)
  }

  lemma {:induction false} LastUseBound(events: seq<Event>, key: Key, limits: Limits)
    ensures LastUse(events, key, limits) <= |events|
  {
    hide Uses;
    if events != [] {
      LastUseBound(events[..|events| - 1], key, limits);
    }
  }

  ghost predicate ByUse(order: seq<Key>, use: Key -> nat) {
    forall i, j :: 0 <= i < j < |order| ==> use(order[i]) < use(order[j])
  }

  lemma ByUseCut(order: seq<Key>, n: nat, use: Key -> nat)
    requires ByUse(order, use) && n <= |order|
    ensures ByUse(order[n..], use)
  {
  }

  lemma ByUseAppend(order: seq<Key>, key: Key, use: Key -> nat)
    requires ByUse(order, use) && forall k :: k in order ==> use(k) < use(key)
    ensures ByUse(order + [key], use)
  {
  }

  lemma {:induction false} ByUseWithout(order: seq<Key>, key: Key, use: Key -> nat)
    requires ByUse(order, use)
    ensures ByUse(Without(order, key), use)
  {
    if order != [] {
      var first, rest := order[0], order[1..];
      ByUseWithout(rest, key, use);
      WithoutMembers(rest, key);
      ByUsePrepend(first, rest, Without(rest, key), use);
    }
  }

  lemma {:induction false} ByUseKeep(order: seq<Key>, gone: set<Key>, use: Key -> nat)
    requires ByUse(order, use)
    ensures ByUse(Keep(order, gone), use)
  {
    if order != [] {
      var first, rest := order[0], order[1..];
      ByUseKeep(rest, gone, use);
      KeepMembers(rest, gone);
      ByUsePrepend(first, rest, Keep(rest, gone), use);
    }
  }

  lemma ByUsePrepend(first: Key, rest: seq<Key>, part: seq<Key>, use: Key -> nat)
    requires ByUse([first] + rest, use) && ByUse(part, use) && forall k :: k in part ==> k in rest
    ensures ByUse([first] + part, use)
  {
    forall j | 0 <= j < |part|
      ensures use(first) < use(part[j])
    {
      assert part[j] in part;
      var i :| 0 <= i < |rest| && rest[i] == part[j];
      assert ([first] + rest)[0] == first && ([first] + rest)[i + 1] == part[j];
    }
  }

  lemma ByUseAgrees(order: seq<Key>, a: Key -> nat, b: Key -> nat)
    requires ByUse(order, a) && forall k :: k in order ==> a(k) == b(k)
    ensures ByUse(order, b)
  {
  }

  function UseOf(events: seq<Event>, limits: Limits): Key -> nat {
    key => LastUse(events, key, limits)
  }

  /** Main result: after any run the eviction order lists the stored keys by their last use. */
  lemma {:induction false} OrderIsByUse(events: seq<Event>, limits: Limits)
    ensures ByUse(Run(events, limits).order, UseOf(events, limits))
  {
    hide After, UseOf, ByUse;
    if events == [] {
      NothingByUse(UseOf(events, limits));
    } else {
      var n := |events| - 1;
      OrderIsByUse(events[..n], limits);
      assert events == events[..n] + [events[n]];
      OrderStep(events[..n], events[n], limits);
    }
  }

  /** One more event leaves alone the uses of all keys it does not use, and puts the others' last. */
  lemma UseAfter(events: seq<Event>, e: Event, key: Key, limits: Limits)
    ensures UseOf(events + [e], limits)(key) ==
            if Uses(events, e, key, limits) then |events| + 1 else UseOf(events, limits)(key)
    ensures UseOf(events, limits)(key) <= |events|
  {
    hide Uses;
    assert (events + [e])[..|events|] == events;
    LastUseBound(events, key, limits);
  }

  lemma OrderStep(events: seq<Event>, e: Event, limits: Limits)
    requires ByUse(Run(events, limits).order, UseOf(events, limits))
    ensures ByUse(Run(events + [e], limits).order, UseOf(events + [e], limits))
  {
    var c, before, after := Run(events, limits), UseOf(events, limits), UseOf(events + [e], limits);
    assert (events + [e])[..|events|] == events;
    forall key: Key
      ensures after(key) == (if Uses(events, e, key, limits) then |events| + 1 else before(key)) && before(key) <= |events|
      ensures Keeps(c, key, InForce(events, key, limits)) && Ordered(c)
    {
      UseAfter(events, e, key, limits);
      HoldsWhatWasPut(events, key, limits);
    }
    hide Run, InForce, UseOf, ByUse, Distinct;
    match e
    case PutOne(_, _, _, _) =>
      PutOrder(events, e, limits, before, after);
    case GetOne(series, stamp, now) =>
      var key := Key(series, stamp);
      WithoutMembers(c.order, key);
      ByUseWithout(c.order, key, before);
      ByUseAgrees(Without(c.order, key), before, after);
      if Uses(events, e, key, limits) {
        ByUseAppend(Without(c.order, key), key, after);
      }
    case Query(_, _, _) =>
      ByUseAgrees(c.order, before, after);
    case Cleanup(now) =>
      var gone := set k | k in c.entries && Expired(c.entries[k], now);
      KeepMembers(c.order, gone);
      ByUseKeep(c.order, gone, before);
      ByUseAgrees(Keep(c.order, gone), before, after);
    case ClearAll =>
      NothingByUse(after);
  }

  lemma NothingByUse(use: Key -> nat)
    ensures ByUse([], use)
  {
  }

  /** A put uses its key unless it stays where it stands, and no other. */
  lemma PutUses(events: seq<Event>, e: Event, limits: Limits, key: Key)
    requires e.PutOne? && Ordered(Run(events, limits))
    requires Keeps(Run(events, limits), key, InForce(events, key, limits))
    ensures Uses(events, e, key, limits) <==>
            Writes(e, key, limits) && key !in Run(events, limits).order[|Evicted(Run(events, limits), e, limits)|..]
  {
    var c, n := Run(events, limits), |Evicted(Run(events, limits), e, limits)|;
    CutMembers(c.order, n);
    assert c.order[..n] == Evicted(c, e, limits);
    hide Run, InForce, Evicted, Distinct, Writes;
  }

  lemma PutOrder(events: seq<Event>, e: Event, limits: Limits, before: Key -> nat, after: Key -> nat)
    requires e.PutOne? && Ordered(Run(events, limits)) && ByUse(Run(events, limits).order, before)
    requires forall key :: after(key) == (if Uses(events, e, key, limits) then |events| + 1 else before(key)) && before(key) <= |events|
    requires forall key :: Keeps(Run(events, limits), key, InForce(events, key, limits))
    ensures ByUse(After(Run(events, limits), e, limits).order, after)
  {
    var c, n, key := Run(events, limits), |Evicted(Run(events, limits), e, limits)|, Key(e.series, StampOf(e.data, e.now));
    var kept := c.order[n..];
    hide Run, InForce, After, Evicted, Ordered, Keeps, Uses, ByUse, Size, StampOf;
    StoredShape(c, e, limits, kept);
    NothingByUse(after);
    ByUseCut(c.order, n, before);
    forall k | k in kept
      ensures before(k) == after(k)
    {
      assert Keeps(c, k, InForce(events, k, limits));
      PutUses(events, e, limits, k);
    }
    ByUseAgrees(kept, before, after);
    if Size(e.data) <= limits.maxSize && key !in kept {
      assert Keeps(c, key, InForce(events, key, limits));
      PutUses(events, e, limits, key);
      ByUseAppend(kept, key, after);
    }
  }

  /** What a put evicts was used before everything it leaves. */
  lemma EvictsLeastRecentlyUsed(events: seq<Event>, e: Event, limits: Limits, gone: Key, left: Key)
    requires e.PutOne?
    requires var c := Run(events, limits); gone in Evicted(c, e, limits) && left in c.order && left !in Evicted(c, e, limits)
    ensures LastUse(events, gone, limits) < LastUse(events, left, limits)
  {
    var order, evicted := Run(events, limits).order, Evicted(Run(events, limits), e, limits);
    OrderIsByUse(events, limits);
    hide Run, LastUse;
    var i :| 0 <= i < |evicted| && evicted[i] == gone;
    var j :| 0 <= j < |order| && order[j] == left;
    assert forall k :: 0 <= k < |evicted| ==> order[k] == evicted[k];
    assert i < j;
    assert UseOf(events, limits)(order[i]) < UseOf(events, limits)(order[j]);
  }

  class TimeSeriesCache {
    ghost function View(): Contents
      reads this
    {
      Contents(order, entries, stored)
    }

    const maxSize: nat
    const defaultTtl: int
    var order: seq<Key>
    var entries: map<Key, Entry>
    var timeIndex: map<Series, seq<Time>>
    var sizeBytes: int
    var hitCount: nat
    var missCount: nat
    /** Every stamp stored since the last clear. */
    ghost var stored: map<Series, set<Time>>

    ghost predicate Valid()
      reads this
    {
      Accounted(order, entries, sizeBytes, maxSize) && Indexed(timeIndex, stored) && Covered(entries, stored)
    }

    constructor (maxSize: nat, defaultTtl: int)
      ensures Valid() && order == [] && stored == map[] && hitCount == missCount == 0
      ensures this.maxSize == maxSize && this.defaultTtl == defaultTtl
    {
      this.maxSize, this.defaultTtl := maxSize, defaultTtl;
      order, entries, timeIndex, sizeBytes := [], map[], map[], 0;
      hitCount, missCount := 0, 0;
      stored := map[];
    }

    method RemoveEntry(key: Key)
      requires Valid()
      modifies this`order, this`entries, this`sizeBytes
      ensures Valid()
      ensures entries == old(entries) - {key} && order == Without(old(order), key)
    {
      hide Distinct, TotalSize, Indexed;
      WithoutMembers(order, key);
      if key !in entries {
        return;
      }
      RemoveAccounted(order, entries, sizeBytes, maxSize, key);
      sizeBytes := sizeBytes - Size(entries[key].data);
      order := Without(order, key);
      entries := entries - {key};
    }

    method EvictLru() returns (evicted: bool)
      requires Valid()
      modifies this`order, this`entries, this`sizeBytes
      ensures Valid()
      ensures evicted <==> old(order) != []
      ensures if evicted then order == old(order)[1..] && entries == Restrict(old(entries), order)
              else unchanged(this)
    {
      if order == [] {
        return false;
      }
      EvictAccounted(order, entries, sizeBytes, maxSize);
      hide Valid, Restrict;
      RemoveEntry(order[0]);
      return true;
    }

    /** Evicts the oldest entries until `need` more bytes fit. */
    method MakeRoom(need: nat) returns (fits: bool)
      requires Valid()
      modifies this`order, this`entries, this`sizeBytes
      ensures Valid()
      ensures order == old(order)[EvictCount(old(order), old(entries), need, maxSize)..]
      ensures entries == Restrict(old(entries), order)
      ensures fits <==> need <= maxSize
      ensures fits ==> sizeBytes + need <= maxSize
    {
      hide Indexed, Covered, Distinct, TotalSize;
      ghost var gone := 0;
      assert entries == Restrict(entries, order);
      while sizeBytes + need > maxSize
        invariant Valid()
        invariant gone <= |old(order)| && order == old(order)[gone..]
        invariant entries == Restrict(old(entries), order)
        invariant EvictCount(old(order), old(entries), need, maxSize) ==
                  gone + EvictCount(order, old(entries), need, maxSize)
        decreases |order|
      {
        TotalSizeAgrees(order, entries, old(entries));
        ghost var before, had := order, entries;
        var evicted := EvictLru();
        if !evicted {
          EmptySize(old(entries));
          return false;
        }
        RestrictTwice(old(entries), before, order);
        gone := gone + 1;
      }
      TotalSizeAgrees(order, entries, old(entries));
      return true;
    }

    /** Adds a stamp to its series' index. */
    method UpdateTimeIndex(series: Series, stamp: Time)
      requires Indexed(timeIndex, stored)
      modifies this`timeIndex, this`stored
      ensures Indexed(timeIndex, stored)
      ensures stored == old(stored)[series := StoredAt(old(stored), series) + {stamp}]
      ensures forall s :: s in old(timeIndex) && s != series ==> s in timeIndex && timeIndex[s] == old(timeIndex)[s]
    {
      hide LargestOf;
      EmptyIndex();
      ghost var all := StoredAt(stored, series);
      if series !in timeIndex {
        timeIndex := timeIndex[series := []];
      }
      var stamps := InsertStamp(timeIndex[series], stamp, all);
      timeIndex := timeIndex[series := stamps];
      stored := stored[series := all + {stamp}];
    }

    /** Storing one item fails exactly when the item alone exceeds the budget, and then empties the cache; else
        the shortest oldest prefix that makes room goes, an entry kept under the same key is replaced where it
        stands in the eviction order, and a new one goes to the end. */
    method PutSingle(series: Series, data: Item, ttlSeconds: Option<int>, now: Time) returns (ok: bool)
      requires Valid()
      modifies this
      ensures Valid()
      ensures ok <==> Size(data) <= maxSize
      ensures View() == After(old(View()), PutOne(series, data, ttlSeconds, now), Limits(maxSize, defaultTtl))
      ensures !ok ==> timeIndex == old(timeIndex)
      ensures hitCount == old(hitCount) && missCount == old(missCount)
    {
      hide Distinct, TotalSize, Accounted, Indexed, LargestOf, Restrict, EvictCount;
      var timestamp := StampOf(data, now);
      var key := Key(series, timestamp);
      var dataSize := Size(data);
      EvictionIsLeast(order, entries, dataSize, maxSize);
      var fits := MakeRoom(dataSize);
      RestrictMembers(old(entries), order);
      OrderIsKeys(order, entries, sizeBytes, maxSize);
      if !fits {
        return false;
      }
      var ttl := if ttlSeconds == None || ttlSeconds == Some(0) then defaultTtl else ttlSeconds.value;
      var entry := Entry(data, now, now, 0, ttl);
      if key in entries {
        ReplaceAccounted(order, entries, sizeBytes, maxSize, key, entry);
        sizeBytes := sizeBytes - Size(entries[key].data);
      } else {
        AppendAccounted(order, entries, sizeBytes, maxSize, key, entry);
        order := order + [key];
      }
      entries := entries[key := entry];
      sizeBytes := sizeBytes + dataSize;
      UpdateTimeIndex(series, timestamp);
      return true;
    }

    /** A single-stamp query: a hit moves the entry to the end of the eviction order, an expired entry is
        removed and missed. */
    method Get(series: Series, stamp: Time, now: Time) returns (result: Option<Item>)
      requires Valid()
      modifies this
      ensures Valid() && timeIndex == old(timeIndex)
      ensures View() == After(old(View()), Event.GetOne(series, stamp, now), Limits(maxSize, defaultTtl))
      ensures result == AnswerAt(old(View()), Key(series, stamp), now)
      ensures hitCount == old(hitCount) + (if result.Some? then 1 else 0)
      ensures missCount == old(missCount) + (if result.Some? then 0 else 1)
    {
      hide Distinct, TotalSize, Accounted, Indexed, Without;
      var key := Key(series, stamp);
      WithoutMembers(order, key);
      OrderIsKeys(order, entries, sizeBytes, maxSize);
      if key in entries {
        if Expired(entries[key], now) {
          RemoveEntry(key);
          missCount := missCount + 1;
          return None;
        }
        var touched := entries[key := Touched(entries[key], now)];
        MoveToEndAccounted(order, entries, sizeBytes, maxSize, key);
        order := Without(order, key) + [key];
        SameSizesAccounted(order, entries, touched, sizeBytes, maxSize);
        entries := touched;
        hitCount := hitCount + 1;
        return Some(entries[key].data);
      }
      missCount := missCount + 1;
      return None;
    }

    /** The stamps a range query looks up: one pass over the index, stopping at the limit. */
    method Filter(stamps: seq<Time>, from: Option<Time>, to: Option<Time>, limit: Option<int>) returns (filtered: seq<Time>)
      ensures filtered == Limited(InRange(stamps, from, to), limit)
    {
      filtered := [];
      var allowance := Allowance(limit);
      for i := 0 to |stamps|
        invariant filtered == InRange(stamps[..i], from, to)
        invariant allowance.Some? ==> |filtered| < allowance.value
      {
        assert stamps[..i + 1][..i] == stamps[..i];
        if Within(stamps[i], from, to) {
          filtered := filtered + [stamps[i]];
          if limit.Some? && limit.value != 0 && |filtered| >= limit.value {
            InRangePrefix(stamps, i + 1, from, to);
            return;
          }
        }
      }
      assert stamps[..|stamps|] == stamps;
    }

    /** Reads the entries of the given stamps: each present, unexpired one is touched and answered. */
    method Collect(series: Series, filtered: seq<Time>, now: Time) returns (result: seq<Item>)
      requires Valid() && Increasing(filtered)
      modifies this`entries, this`hitCount, this`missCount
      ensures Valid()
      ensures var live := Live(filtered, series, old(entries), now);
        && (forall t :: t in live ==> Key(series, t) in old(entries))
        && result == ItemsAt(live, series, old(entries))
        && entries == TouchAll(old(entries), series, live, now)
        && hitCount == old(hitCount) + |live| && missCount == old(missCount) + |filtered| - |live|
    {
      hide Distinct, TotalSize, Accounted, Indexed, LargestOf, ItemsAt, TouchAll, Live, Expired;
      result := [];
      ghost var live: seq<Time> := [];
      LiveNone(series, entries, now);
      for i := 0 to |filtered|
        invariant live == Live(filtered[..i], series, old(entries), now)
        invariant forall t :: t in live ==> Key(series, t) in old(entries) && t in filtered[..i]
        invariant result == ItemsAt(live, series, old(entries))
        invariant entries == TouchAll(old(entries), series, live, now)
        invariant hitCount == old(hitCount) + |live| && missCount == old(missCount) + i - |live|
      {
        var ts := filtered[i];
        var key := Key(series, ts);
        assert ts !in filtered[..i];
        assert filtered[..i + 1] == filtered[..i] + [ts];
        LiveStep(filtered[..i], ts, series, old(entries), now);
        TouchStep(old(entries), series, live, ts, now);
        if key in entries && !Expired(entries[key], now) {
          ItemsStep(live, ts, series, old(entries));
          result := result + [entries[key].data];
          entries := entries[key := Touched(entries[key], now)];
          hitCount := hitCount + 1;
          live := live + [ts];
        } else {
          missCount := missCount + 1;
        }
      }
      assert filtered[..|filtered|] == filtered;
      TouchKeepsData(old(entries), series, live, now);
      SameSizesAccounted(order, old(entries), entries, sizeBytes, maxSize);
    }

    /** A range query: every stamp looked up counts as a hit or a miss, and answered entries are touched but keep
        their place in the eviction order. */
    method GetRange(series: Series, from: Option<Time>, to: Option<Time>, limit: Option<int>, now: Time)
      returns (result: seq<Item>)
      requires Valid()
      modifies this`entries, this`hitCount, this`missCount
      ensures Valid()
      ensures var looked := Limited(InRange(IndexAt(timeIndex, series), from, to), limit);
        var live := Live(looked, series, old(entries), now);
        && View() == After(old(View()), Query(series, looked, now), Limits(maxSize, defaultTtl))
        && (forall t :: t in live ==> Key(series, t) in old(entries))
        && result == ItemsAt(live, series, old(entries))
        && hitCount == old(hitCount) + |live|
      ensures missCount == old(missCount) - |result| +
          if series in timeIndex then |Limited(InRange(timeIndex[series], from, to), limit)| else 1
    {
      hide Distinct, TotalSize, Accounted, LargestOf, Limited, InRange, Expired;
      if series !in timeIndex {
        missCount := missCount + 1;
        EmptyAnswer(from, to, limit);
        LiveNone(series, entries, now);
        return [];
      }
      var filtered := Filter(timeIndex[series], from, to, limit);
      FilteredDistinct(timeIndex[series], stored[series], from, to, limit);
      result := Collect(series, filtered, now);
    }

    /** Storing a list stores its items one after another, goes on after one that does not fit (which has emptied the
        cache), and succeeds exactly when each of them fits on its own. */
    method Put(series: Series, items: seq<Item>, ttlSeconds: Option<int>, now: Time) returns (success: bool)
      requires Valid()
      modifies this
      ensures Valid()
      ensures success <==> forall i :: 0 <= i < |items| ==> Size(items[i]) <= maxSize
      ensures View() == StoredAll(old(View()), series, items, ttlSeconds, now, maxSize, defaultTtl)
    {
      hide Valid, Stored;
      success := true;
      for i := 0 to |items|
        invariant Valid()
        invariant View() == StoredAll(old(View()), series, items[..i], ttlSeconds, now, maxSize, defaultTtl)
        invariant success <==> forall j :: 0 <= j < i ==> Size(items[j]) <= maxSize
      {
        assert items[..i + 1][..i] == items[..i];
        var ok := PutSingle(series, items[i], ttlSeconds, now);
        if !ok {
          success := false;
        }
      }
      assert items[..|items|] == items;
    }

    /** The background pass removes exactly the expired entries; the others keep their order. */
    method CleanupExpired(now: Time)
      requires Valid()
      modifies this`order, this`entries, this`sizeBytes
      ensures Valid()
      ensures View() == After(old(View()), Cleanup(now), Limits(maxSize, defaultTtl))
    {
      hide Distinct, TotalSize, Accounted, Indexed, LargestOf, Without, Keep;
      OrderIsKeys(order, entries, sizeBytes, maxSize);
      KeepAll(order);
      var expiredKeys: seq<Key> := [];
      for i := 0 to |order|
        invariant forall k :: k in expiredKeys <==> k in order[..i] && Expired(entries[k], now)
      {
        assert order[..i + 1] == order[..i] + [order[i]];
        if Expired(entries[order[i]], now) {
          expiredKeys := expiredKeys + [order[i]];
        }
      }
      assert order[..|order|] == order;
      assert Members(expiredKeys[..0]) == {};
      for i := 0 to |expiredKeys|
        invariant Valid()
        invariant entries == map k | k in old(entries) && k !in expiredKeys[..i] :: old(entries)[k]
        invariant order == Keep(old(order), Members(expiredKeys[..i]))
      {
        assert expiredKeys[..i + 1] == expiredKeys[..i] + [expiredKeys[i]];
        KeepWithout(old(order), Members(expiredKeys[..i]), expiredKeys[i]);
        assert Members(expiredKeys[..i + 1]) == Members(expiredKeys[..i]) + {expiredKeys[i]};
        RemoveEntry(expiredKeys[i]);
      }
      assert expiredKeys[..|expiredKeys|] == expiredKeys;
      assert Members(expiredKeys) == set k | k in old(entries) && Expired(old(entries)[k], now);
    }

    method Clear()
      modifies this
      ensures Valid() && timeIndex == map[]
      ensures View() == After(old(View()), ClearAll, Limits(maxSize, defaultTtl))
      ensures hitCount == old(hitCount) && missCount == old(missCount)
    {
      order, entries, timeIndex, sizeBytes := [], map[], map[], 0;
      stored := map[];
    }
  }
}
