/** The online bar builder: ticks and a one-second timer drive one active bar per (stock, interval). */
module MinuteBarCollector {
  import opened Wrappers
  import opened BarWindow
  import opened BarSummary

  datatype Tick = Tick(stockCode: string, timestamp: Time, price: real, volume: int)

  datatype Slot = Slot(stockCode: string, interval: nat)

  /** The value of a bar object. */
  datatype Bar = Bar(slot: Slot, startTime: Time, endTime: Time, ohlcv: Ohlcv, tickCount: nat)

  class MinuteBar {
    const slot: Slot
    const startTime: Time
    const endTime: Time
    var openPrice: real
    var highPrice: real
    var lowPrice: real
    var closePrice: real
    var volume: int
    var tickCount: nat

    ghost function Value(): Bar
      reads this
    {
      Bar(slot, startTime, endTime, Ohlcv(openPrice, highPrice, lowPrice, closePrice, volume), tickCount)
    }

    constructor (slot: Slot, startTime: Time, endTime: Time, tick: Tick)
      ensures this.slot == slot
      ensures Value() == Bar(slot, startTime, endTime, Single(tick.price, tick.volume), 1)
    {
      this.slot, this.startTime, this.endTime := slot, startTime, endTime;
      openPrice, highPrice, lowPrice, closePrice := tick.price, tick.price, tick.price, tick.price;
      volume, tickCount := tick.volume, 1;
    }

    method Update(tick: Tick)
      modifies this
      ensures Value() == old(Value()).(ohlcv := Join(old(Value()).ohlcv, Single(tick.price, tick.volume)),
                                       tickCount := old(tickCount) + 1)
    {
      highPrice := Max(highPrice, tick.price);
      lowPrice := Min(lowPrice, tick.price);
      closePrice := tick.price;
      volume := volume + tick.volume;
      tickCount := tickCount + 1;
    }
  }

  /** One (stock, interval) seen alone: the bar being built and the bars completed so far, oldest first. */
  datatype SlotState = SlotState(active: Option<Bar>, done: seq<Bar>)

  function NewBar(slot: Slot, tick: Tick): Bar
    requires slot.interval > 0
  {
    var start := AlignInHour(tick.timestamp, slot.interval);
    Bar(slot, start, start + slot.interval * MINUTE, Single(tick.price, tick.volume), 1)
  }

  function OnTick(s: SlotState, slot: Slot, tick: Tick): SlotState
    requires slot.interval > 0
  {
    match s.active
    case None => s.(active := Some(NewBar(slot, tick)))
    case Some(bar) =>
      if tick.timestamp >= bar.endTime
      then SlotState(Some(NewBar(slot, tick)), s.done + [bar])
      else s.(active := Some(bar.(ohlcv := Join(bar.ohlcv, Single(tick.price, tick.volume)),
                                  tickCount := bar.tickCount + 1)))
  }

  function OnFlush(s: SlotState): SlotState {
    if s.active.Some? then SlotState(None, s.done + [s.active.value]) else s
  }

  function OnTimer(s: SlotState, now: Time): SlotState {
    if s.active.Some? && now >= s.active.value.endTime then OnFlush(s) else s
  }

  function OnTicks(s: SlotState, slot: Slot, tick: Tick, times: nat): SlotState
    requires slot.interval > 0
  {
    if times == 0 then s else OnTick(OnTicks(s, slot, tick, times - 1), slot, tick)
  }

  function Count(intervals: seq<nat>, interval: nat): nat {
    if intervals == [] then 0
    else Count(intervals[..|intervals| - 1], interval) + if intervals[|intervals| - 1] == interval then 1 else 0
  }

  /** How often a tick is applied to a slot: once for each entry of its interval in the configured list. */
  function Applications(slot: Slot, tick: Tick, intervals: seq<nat>): nat {
    if slot.stockCode == tick.stockCode then Count(intervals, slot.interval) else 0
  }

  ghost function DoneFor(slot: Slot, bars: seq<MinuteBar>): seq<Bar>
    reads bars
  {
    if bars == [] then []
    else
      var n := |bars| - 1;
      var earlier := DoneFor(slot, bars[..n]);
      if bars[n].slot == slot then earlier + [bars[n].Value()] else earlier
  }

  class MinuteBarCollector {
    const supportedIntervals: seq<nat>
    var activeBars: map<Slot, MinuteBar>
    var completedBars: seq<MinuteBar>
    var barsCompleted: nat

    ghost predicate Valid()
      reads this
    {
      && (forall i :: i in supportedIntervals ==> i > 0)
      && (forall slot :: slot in activeBars ==> activeBars[slot].slot == slot && activeBars[slot] !in completedBars)
      && barsCompleted == |completedBars|
    }

    ghost function State(slot: Slot): SlotState
      reads this, activeBars.Values, completedBars
    {
      SlotState(if slot in activeBars then Some(activeBars[slot].Value()) else None, DoneFor(slot, completedBars))
    }

    constructor (intervals: seq<nat>)
      requires forall i :: i in intervals ==> i > 0
      ensures Valid() && fresh(activeBars.Values)
      ensures supportedIntervals == if intervals == [] then [1, 5, 10, 30, 60] else intervals
      ensures forall slot :: State(slot) == SlotState(None, [])
    {
      supportedIntervals := if intervals == [] then [1, 5, 10, 30, 60] else intervals;
      activeBars, completedBars, barsCompleted := map[], [], 0;
    }

    /** Moves the slot's bar, when there is one, to the queue of completed bars. */
    method CompleteBar(slot: Slot)
      requires Valid()
      modifies this
      ensures Valid()
      ensures activeBars == old(activeBars) - {slot}
      ensures State(slot) == OnFlush(old(State(slot)))
      ensures forall other :: other != slot ==> State(other) == old(State(other))
    {
      if slot !in activeBars {
        return;
      }
      var bar := activeBars[slot];
      activeBars := activeBars - {slot};
      completedBars := completedBars + [bar];
      barsCompleted := barsCompleted + 1;
      assert completedBars[..|completedBars| - 1] == old(completedBars);
    }

    method UpdateBar(tick: Tick, interval: nat)
      requires Valid() && interval > 0
      modifies this, activeBars.Values
      ensures Valid()
      ensures forall bar :: bar in activeBars.Values ==> bar in old(activeBars.Values) || fresh(bar)
      ensures var slot := Slot(tick.stockCode, interval); State(slot) == OnTick(old(State(slot)), slot, tick)
      ensures forall other :: other != Slot(tick.stockCode, interval) ==> State(other) == old(State(other))
    {
      hide AlignInHour;
      var slot := Slot(tick.stockCode, interval);
      var startTime := AlignInHour(tick.timestamp, interval);
      var endTime := startTime + interval * MINUTE;
      if slot !in activeBars {
        var bar := new MinuteBar(slot, startTime, endTime, tick);
        activeBars := activeBars[slot := bar];
      } else {
        var bar := activeBars[slot];
        if tick.timestamp >= bar.endTime {
          CompleteBar(slot);
          var next := new MinuteBar(slot, startTime, endTime, tick);
          activeBars := activeBars[slot := next];
        } else {
          bar.Update(tick);
        }
      }
    }

    /** One tick reaches every configured interval of its stock, and nothing else. */
    method UpdateBars(tick: Tick)
      requires Valid()
      modifies this, activeBars.Values
      ensures Valid()
      ensures forall slot: Slot :: slot.interval > 0 ==>
          State(slot) == OnTicks(old(State(slot)), slot, tick, Applications(slot, tick, supportedIntervals))
    {
      hide AlignInHour, OnTick, DoneFor;
      ghost var was := imap slot: Slot | true :: State(slot);
      for i := 0 to |supportedIntervals|
        invariant Valid()
        invariant forall bar :: bar in activeBars.Values ==> bar in old(activeBars.Values) || fresh(bar)
        invariant forall slot: Slot :: slot.interval > 0 ==>
            State(slot) == OnTicks(was[slot], slot, tick, Applications(slot, tick, supportedIntervals[..i]))
      {
        assert supportedIntervals[..i + 1][..i] == supportedIntervals[..i];
        assert supportedIntervals[i] in supportedIntervals;
        ghost var mid := imap slot: Slot | true :: State(slot);
        UpdateBar(tick, supportedIntervals[i]);
        assert forall slot: Slot ::
            State(slot) == if slot == Slot(tick.stockCode, supportedIntervals[i]) then OnTick(mid[slot], slot, tick) else mid[slot];
      }
      assert supportedIntervals[..|supportedIntervals|] == supportedIntervals;
    }

    /** The timer completes exactly the bars whose end has come. */
    method CheckCompletedBars(now: Time)
      requires Valid()
      modifies this
      ensures Valid()
      ensures forall slot :: State(slot) == OnTimer(old(State(slot)), now)
    {
      hide DoneFor;
      var todo := activeBars.Keys;
      while todo != {}
        invariant Valid()
        invariant todo <= activeBars.Keys <= old(activeBars.Keys)
        invariant forall slot :: slot in activeBars ==> activeBars[slot] == old(activeBars[slot])
        invariant forall slot :: State(slot) == if slot in todo then old(State(slot)) else OnTimer(old(State(slot)), now)
      {
        var slot :| slot in todo;
        todo := todo - {slot};
        if now >= activeBars[slot].endTime {
          CompleteBar(slot);
        }
      }
    }

    /** Stopping the collector completes every bar. */
    method CompleteAllBars()
      requires Valid()
      modifies this
      ensures Valid() && activeBars == map[]
      ensures forall slot :: State(slot) == OnFlush(old(State(slot)))
    {
      hide DoneFor;
      var todo := activeBars.Keys;
      while todo != {}
        invariant Valid()
        invariant todo == activeBars.Keys
        invariant forall slot :: State(slot) == if slot in todo then old(State(slot)) else OnFlush(old(State(slot)))
      {
        var slot :| slot in todo;
        todo := todo - {slot};
        CompleteBar(slot);
      }
    }
  }

  // ---- Whole runs of one slot ----

  datatype Event = TickEvent(tick: Tick) | TimerEvent(now: Time)

  function OnEvent(s: SlotState, slot: Slot, e: Event): SlotState
    requires slot.interval > 0
  {
    match e
    case TickEvent(tick) => if tick.stockCode == slot.stockCode then OnTick(s, slot, tick) else s
    case TimerEvent(now) => OnTimer(s, now)
  }

  function Run(slot: Slot, events: seq<Event>): SlotState
    requires slot.interval > 0
  {
    if events == [] then SlotState(None, [])
    else OnEvent(Run(slot, events[..|events| - 1]), slot, events[|events| - 1])
  }

  /** The bars a slot has produced once the collector is stopped. */
  function Produced(slot: Slot, events: seq<Event>): seq<Bar>
    requires slot.interval > 0
  {
    OnFlush(Run(slot, events)).done
  }

  function TicksOf(events: seq<Event>, stockCode: string): seq<Tick> {
    if events == [] then []
    else
      var n := |events| - 1;
      var earlier := TicksOf(events[..n], stockCode);
      if events[n].TickEvent? && events[n].tick.stockCode == stockCode then earlier + [events[n].tick] else earlier
  }

  /** The latest time the collector has seen for a stock: its ticks and every timer check. */
  function Latest(events: seq<Event>, stockCode: string): Time {
    if events == [] then 0
    else
      var n := |events| - 1;
      var before := Latest(events[..n], stockCode);
      match events[n]
      case TimerEvent(now) => if now > before then now else before
      case TickEvent(tick) => if tick.stockCode == stockCode && tick.timestamp > before then tick.timestamp else before
  }

  /** No tick of the stock is older than an earlier tick of it or an earlier timer check. Timer checks and
      other stocks' ticks are unconstrained. */
  predicate TimeOrdered(events: seq<Event>, stockCode: string) {
    events == [] ||
    var n := |events| - 1;
    && TimeOrdered(events[..n], stockCode)
    && (events[n].TickEvent? && events[n].tick.stockCode == stockCode ==>
          events[n].tick.timestamp >= Latest(events[..n], stockCode))
  }

  /** Each trade as an item of the window of the given length that holds it. */
  function Trades(ticks: seq<Tick>, interval: nat): seq<Keyed>
    requires interval > 0
  {
    seq(|ticks|, i requires 0 <= i < |ticks| =>
      Keyed(WindowStart(ticks[i].timestamp, interval), Single(ticks[i].price, ticks[i].volume)))
  }

  function KeyedBars(bars: seq<Bar>): seq<Keyed> {
    seq(|bars|, i requires 0 <= i < |bars| => Keyed(bars[i].startTime, bars[i].ohlcv))
  }

  ghost predicate Aligned(bar: Bar, slot: Slot)
    requires slot.interval > 0
  {
    && bar.slot == slot
    && bar.endTime == bar.startTime + slot.interval * MINUTE
    && WindowStart(bar.startTime, slot.interval) == bar.startTime
  }

  /** What holds of a slot between events: with the active bar counted, its bars are the runs of the trades
      seen, and a completed bar that has no successor yet ended before the latest time seen. */
  ghost predicate SlotInv(slot: Slot, events: seq<Event>)
    requires slot.interval > 0
  {
    var s := Run(slot, events);
    var bars := OnFlush(s).done;
    && KeyedBars(bars) == Runs(Trades(TicksOf(events, slot.stockCode), slot.interval))
    && (forall b :: b in bars ==> Aligned(b, slot) && b.startTime <= Latest(events, slot.stockCode))
    && (s.active.None? && s.done != [] ==> s.done[|s.done| - 1].endTime <= Latest(events, slot.stockCode))
  }

  lemma {:induction false} SlotInvHolds(slot: Slot, events: seq<Event>)
    requires slot.interval > 0 && 60 % slot.interval == 0
    requires TimeOrdered(events, slot.stockCode)
    ensures SlotInv(slot, events)
  {
    hide WindowStart, AlignInHour;
    if events != [] {
      var n := |events| - 1;
      SlotInvHolds(slot, events[..n]);
      match events[n]
      case TimerEvent(now) =>
      case TickEvent(tick) =>
        if tick.stockCode == slot.stockCode {
          TickStep(slot, events[..n], tick);
          assert events == events[..n] + [events[n]];
        }
    }
  }

  lemma KeyedBarsPush(bars: seq<Bar>, bar: Bar)
    ensures KeyedBars(bars + [bar]) == KeyedBars(bars) + [Keyed(bar.startTime, bar.ohlcv)]
  {
  }

  /** A trade not older than anything seen extends the runs either by joining the active bar or by a bar of its own. */
  lemma TickStep(slot: Slot, before: seq<Event>, tick: Tick)
    requires slot.interval > 0 && 60 % slot.interval == 0
    requires SlotInv(slot, before)
    requires tick.stockCode == slot.stockCode && tick.timestamp >= Latest(before, slot.stockCode)
    ensures SlotInv(slot, before + [TickEvent(tick)])
  {
    hide WindowStart, AlignInHour, Runs, Push;
    var k := slot.interval;
    var events := before + [TickEvent(tick)];
    assert events[..|before|] == before;
    var s := Run(slot, before);
    var bars := OnFlush(s).done;
    var ticks := TicksOf(before, slot.stockCode);
    var trade := Keyed(WindowStart(tick.timestamp, k), Single(tick.price, tick.volume));
    assert Trades(ticks + [tick], k) == Trades(ticks, k) + [trade];
    RunsPush(Trades(ticks, k), trade);
    BarsAfterTick(slot, s, tick, Latest(before, slot.stockCode));
  }

  lemma WindowIsAligned(t: Time, k: nat)
    requires 0 < k < DAY_MINUTES
    ensures AlignInHour(t, k) == WindowStart(t, k)
  {
  }

  lemma BarsAfterTick(slot: Slot, s: SlotState, tick: Tick, latest: Time)
    requires slot.interval > 0 && 60 % slot.interval == 0
    requires tick.timestamp >= latest
    requires forall b :: b in OnFlush(s).done ==> Aligned(b, slot) && b.startTime <= latest
    requires s.active.None? && s.done != [] ==> s.done[|s.done| - 1].endTime <= latest
    ensures var s' := OnTick(s, slot, tick); var bars' := OnFlush(s').done;
      && s'.active.Some?
      && KeyedBars(bars') == Push(KeyedBars(OnFlush(s).done),
                                  Keyed(WindowStart(tick.timestamp, slot.interval), Single(tick.price, tick.volume)))
      && (forall b :: b in bars' ==> Aligned(b, slot) && b.startTime <= tick.timestamp)
  {
    hide WindowStart, AlignInHour;
    var k, t := slot.interval, tick.timestamp;
    var bars, s' := OnFlush(s).done, OnTick(s, slot, tick);
    var newBar := NewBar(slot, tick);
    WindowHolds(t, t, k);
    WindowsNest(t, k, k);
    WindowIsAligned(t, k);
    assert Aligned(newBar, slot);
    if bars != [] {
      var last := bars[|bars| - 1];
      assert last in bars;
      WindowHolds(last.startTime, t, k);
      if s.active.Some? && t < last.endTime {
        assert s'.done == s.done && bars == s.done + [last];
        KeyedBarsPush(s.done, s'.active.value);
        KeyedBarsPush(s.done, last);
        assert forall b :: b in s.done ==> b in bars;
        return;
      }
    }
    assert OnFlush(s').done == bars + [newBar];
    KeyedBarsPush(bars, newBar);
  }

  ghost predicate InOrder(ticks: seq<Tick>) {
    forall i, j :: 0 <= i < j < |ticks| ==> ticks[i].timestamp <= ticks[j].timestamp
  }

  ghost predicate NoneAfter(ticks: seq<Tick>, t: Time) {
    forall i :: 0 <= i < |ticks| ==> ticks[i].timestamp <= t
  }

  lemma {:induction false} TicksInOrder(events: seq<Event>, stockCode: string)
    requires TimeOrdered(events, stockCode)
    ensures InOrder(TicksOf(events, stockCode)) && NoneAfter(TicksOf(events, stockCode), Latest(events, stockCode))
  {
    if events != [] {
      TicksInOrder(events[..|events| - 1], stockCode);
    }
  }

  lemma TradesInOrder(events: seq<Event>, stockCode: string, minutes: nat)
    requires TimeOrdered(events, stockCode) && Tiles(minutes)
    ensures SortedKeys(Trades(TicksOf(events, stockCode), minutes))
  {
    var ticks := TicksOf(events, stockCode);
    TicksInOrder(events, stockCode);
    forall i, j | 0 <= i < j < |ticks|
      ensures WindowStart(ticks[i].timestamp, minutes) <= WindowStart(ticks[j].timestamp, minutes)
    {
      WindowHolds(ticks[i].timestamp, ticks[j].timestamp, minutes);
    }
  }

  /** Whatever the timer does, the bars a slot produces are the windows that hold trades: in order, none left
      out, each with exactly the summary of its trades. */
  lemma CollectorGroupsTrades(slot: Slot, events: seq<Event>)
    requires slot.interval > 0 && 60 % slot.interval == 0
    requires TimeOrdered(events, slot.stockCode)
    ensures var trades := Trades(TicksOf(events, slot.stockCode), slot.interval);
      && KeyedBars(Produced(slot, events)) == Runs(trades)
      && EachWindowOnce(KeyedBars(Produced(slot, events)), trades)
    ensures forall b :: b in Produced(slot, events) ==> Aligned(b, slot)
  {
    SlotInvHolds(slot, events);
    TradesInOrder(events, slot.stockCode, slot.interval);
    RunsOnce(Trades(TicksOf(events, slot.stockCode), slot.interval));
  }

  // ---- What holds of any history, also one out of order ----

  function TotalTicks(bars: seq<Bar>): nat {
    if bars == [] then 0 else TotalTicks(bars[..|bars| - 1]) + bars[|bars| - 1].tickCount
  }

  function TotalVolume(bars: seq<Bar>): int {
    if bars == [] then 0 else TotalVolume(bars[..|bars| - 1]) + bars[|bars| - 1].ohlcv.volume
  }

  function TradedVolume(ticks: seq<Tick>): int {
    if ticks == [] then 0 else TradedVolume(ticks[..|ticks| - 1]) + ticks[|ticks| - 1].volume
  }

  lemma TotalsPush(bars: seq<Bar>, bar: Bar)
    ensures TotalTicks(bars + [bar]) == TotalTicks(bars) + bar.tickCount
    ensures TotalVolume(bars + [bar]) == TotalVolume(bars) + bar.ohlcv.volume
  {
    assert (bars + [bar])[..|bars|] == bars;
  }

  lemma NewBarCounts(slot: Slot, tick: Tick)
    requires slot.interval > 0
    ensures NewBar(slot, tick).tickCount == 1 && NewBar(slot, tick).ohlcv.volume == tick.volume
  {
    hide AlignInHour;
  }

  lemma JoinedVolume(a: Ohlcv, tick: Tick)
    ensures Join(a, Single(tick.price, tick.volume)).volume == a.volume + tick.volume
  {
  }

  lemma TickCounted(s: SlotState, slot: Slot, tick: Tick)
    requires slot.interval > 0
    ensures TotalTicks(OnFlush(OnTick(s, slot, tick)).done) == TotalTicks(OnFlush(s).done) + 1
    ensures TotalVolume(OnFlush(OnTick(s, slot, tick)).done) == TotalVolume(OnFlush(s).done) + tick.volume
  {
    var after := OnTick(s, slot, tick);
    NewBarCounts(slot, tick);
    TotalsPush(after.done, after.active.value);
    if s.active.Some? {
      TotalsPush(s.done, s.active.value);
      JoinedVolume(s.active.value.ohlcv, tick);
    }
    hide NewBar, Join, Single, TotalTicks, TotalVolume;
  }

  /** A bar of the slot, of the slot's length, made of at least one tick. */
  predicate Formed(b: Bar, slot: Slot) {
    b.slot == slot && b.endTime == b.startTime + slot.interval * MINUTE && b.tickCount >= 1
  }

  lemma TickForms(s: SlotState, slot: Slot, tick: Tick)
    requires slot.interval > 0 && forall b :: b in OnFlush(s).done ==> Formed(b, slot)
    ensures forall b :: b in OnFlush(OnTick(s, slot, tick)).done ==> Formed(b, slot)
  {
    hide AlignInHour;
    assert forall b :: b in s.done ==> b in OnFlush(s).done;
    assert s.active.Some? ==> s.active.value in OnFlush(s).done;
  }

  /** Whatever the order of the ticks and the timer: every tick is counted in exactly one bar, no volume is lost, and
      every bar has its slot's length. */
  lemma {:induction false} TicksCounted(slot: Slot, events: seq<Event>)
    requires slot.interval > 0
    ensures TotalTicks(Produced(slot, events)) == |TicksOf(events, slot.stockCode)|
    ensures TotalVolume(Produced(slot, events)) == TradedVolume(TicksOf(events, slot.stockCode))
    ensures forall b :: b in Produced(slot, events) ==> Formed(b, slot)
  {
    hide OnTick, Formed;
    if events != [] {
      var n := |events| - 1;
      TicksCounted(slot, events[..n]);
      match events[n]
      case TimerEvent(now) =>
      case TickEvent(tick) =>
        if tick.stockCode == slot.stockCode {
          TickCounted(Run(slot, events[..n]), slot, tick);
          TickForms(Run(slot, events[..n]), slot, tick);
          assert (TicksOf(events[..n], slot.stockCode) + [tick])[..|TicksOf(events[..n], slot.stockCode)|] ==
                 TicksOf(events[..n], slot.stockCode);
        }
    }
  }

  /** After a timer check no bar that has ended is active; a bar that has not ended stays as it is. */
  lemma TimerCloses(slot: Slot, events: seq<Event>, now: Time)
    requires slot.interval > 0
    ensures var before, after := Run(slot, events), Run(slot, events + [TimerEvent(now)]);
      && (after.active.Some? ==> now < after.active.value.endTime)
      && (before.active.Some? && now < before.active.value.endTime ==> after == before)
      && Produced(slot, events + [TimerEvent(now)]) == Produced(slot, events)
  {
    assert (events + [TimerEvent(now)])[..|events|] == events;
  }
}
