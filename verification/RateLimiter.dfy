/** The local limiter: a bounded deque of grant times, one waiter at a time, and a limit that may be changed
    while a waiter sleeps. */
module RateLimiter {
  import opened Wrappers

  type Time = int

  /** A waiter past the check, asleep until `until`; `limit` is the limit it was checked against. */
  datatype Waiter = Waiter(limit: nat, until: Time)

  /** The program's state. */
  datatype Limiter = Limiter(limit: nat, history: seq<Time>, waiter: Option<Waiter>)

  /** `Check` is the locked part before the sleep, `Record` the part after it. */
  datatype Event = Check(now: Time) | Record(now: Time) | SetLimit(limit: nat)

  /** A bounded deque keeps its newest elements. */
  function Newest(s: seq<Time>, bound: nat): seq<Time> {
    if |s| > bound then s[|s| - bound..] else s
  }

  function Prune(history: seq<Time>, cutoff: Time): seq<Time> {
    if history != [] && history[0] <= cutoff then Prune(history[1..], cutoff) else history
  }

  predicate Enabled(s: Limiter, e: Event) {
    match e
    case Check(_) => s.waiter == None
    case Record(now) => s.waiter.Some? && now >= s.waiter.value.until
    case SetLimit(_) => true
  }

  /** With a limit of 0 the check fails (it looks at the oldest stamp of an empty history) and nobody waits. */
  function Step(s: Limiter, window: nat, e: Event): Limiter
    requires Enabled(s, e)
  {
    match e
    case Check(now) =>
      var pruned := Prune(s.history, now - window);
      Limiter(s.limit, pruned,
        if |pruned| < s.limit then Some(Waiter(s.limit, now))
        else if pruned == [] then None
        else Some(Waiter(s.limit, pruned[0] + window)))
    case Record(now) => Limiter(s.limit, Newest(s.history + [now], s.limit), None)
    case SetLimit(n) => s.(limit := n, history := Newest(s.history, n))
  }

  class RateLimiter {
    var maxRequests: nat
    const timeWindow: nat
    var requestHistory: seq<Time>
    var waiter: Option<Waiter>
    var totalRequests: nat

    ghost function View(): Limiter
      reads this
    {
      Limiter(maxRequests, requestHistory, waiter)
    }

    constructor (maxRequests: nat, timeWindow: nat)
      ensures View() == Limiter(maxRequests, [], None) && this.timeWindow == timeWindow && totalRequests == 0
    {
      this.maxRequests, this.timeWindow := maxRequests, timeWindow;
      requestHistory, waiter, totalRequests := [], None, 0;
    }

    /** Taking the lock, dropping old stamps and working out how long to sleep. */
    method CheckSlot(now: Time)
      requires Enabled(View(), Check(now))
      modifies this
      ensures View() == Step(old(View()), timeWindow, Check(now)) && totalRequests == old(totalRequests)
    {
      while requestHistory != [] && requestHistory[0] <= now - timeWindow
        invariant Prune(requestHistory, now - timeWindow) == Prune(old(requestHistory), now - timeWindow)
        invariant maxRequests == old(maxRequests) && waiter == None && totalRequests == old(totalRequests)
        decreases |requestHistory|
      {
        requestHistory := requestHistory[1..];
      }
      if |requestHistory| >= maxRequests {
        if requestHistory == [] {
          return;
        }
        waiter := Some(Waiter(maxRequests, requestHistory[0] + timeWindow));
      } else {
        waiter := Some(Waiter(maxRequests, now));
      }
    }

    /** Recording the grant once the sleep is over. */
    method RecordGrant(now: Time)
      requires Enabled(View(), Record(now))
      modifies this
      ensures View() == Step(old(View()), timeWindow, Record(now)) && totalRequests == old(totalRequests) + 1
    {
      requestHistory := Newest(requestHistory + [now], maxRequests);
      waiter := None;
      totalRequests := totalRequests + 1;
    }

    method UpdateRateLimit(maxRequests: nat)
      modifies this
      ensures View() == Step(old(View()), timeWindow, SetLimit(maxRequests)) && totalRequests == old(totalRequests)
    {
      this.maxRequests := maxRequests;
      requestHistory := Newest(requestHistory, maxRequests);
    }
  }

  // ---- Runs, with an unbounded log beside the deque ----

  /** A grant: when it was given, and what its check saw: the limit, the time, how long to wait, and how many
      of the oldest grants the deque no longer vouched for. */
  datatype Grant = Grant(time: Time, limit: nat, checked: Time, until: Time, lost: nat)

  /** The program's state with the full log of grants, the latest time seen, the time of the waiter's check, and
      `lost`: every grant at an index of at least `lost` is in the deque or was out of the window when it left. */
  datatype Recorded = Recorded(state: Limiter, grants: seq<Grant>, clock: Time, checked: Time, lost: nat, lostAtCheck: nat)

  predicate Timely(r: Recorded, e: Event) {
    e.SetLimit? || e.now >= r.clock
  }

  /** How far the loss reaches when a deque whose oldest stamp is grant number `first` is cut to `kept` stamps. */
  function LostTo(history: seq<Time>, kept: nat, cutoff: Time, first: nat): nat {
    if |history| > kept && history[|history| - kept - 1] > cutoff then first + |history| - kept else 0
  }

  function Larger(a: nat, b: nat): nat { if a >= b then a else b }

  function Next(r: Recorded, window: nat, e: Event): Recorded
    requires Enabled(r.state, e)
  {
    var s, s' := r.state, Step(r.state, window, e);
    var first := if |r.grants| >= |s.history| then |r.grants| - |s.history| else 0;
    match e
    case Check(now) => Recorded(s', r.grants, now, now, r.lost, r.lost)
    case Record(now) =>
      Recorded(s', r.grants + [Grant(now, s.waiter.value.limit, r.checked, s.waiter.value.until, r.lostAtCheck)], now,
               r.checked, Larger(r.lost, LostTo(s.history + [now], s.limit, now - window, first)), r.lostAtCheck)
    case SetLimit(n) =>
      r.(state := s', lost := Larger(r.lost, LostTo(s.history, n, r.clock - window, first)))
  }

  function Fresh(limit: nat, start: Time): Recorded {
    Recorded(Limiter(limit, [], None), [], start, start, 0, 0)
  }

  predicate Possible(limit: nat, window: nat, start: Time, events: seq<Event>)
    decreases |events|, 0
  {
    events == [] ||
    var n := |events| - 1;
    && Possible(limit, window, start, events[..n])
    && var r := Run(limit, window, start, events[..n]);
       Enabled(r.state, events[n]) && Timely(r, events[n])
  }

  function Run(limit: nat, window: nat, start: Time, events: seq<Event>): Recorded
    requires Possible(limit, window, start, events)
    decreases |events|, 1
  {
    if events == [] then Fresh(limit, start)
    else
      var n := |events| - 1;
      Next(Run(limit, window, start, events[..n]), window, events[n])
  }

  // ---- The invariant ----

  ghost predicate Ordered(grants: seq<Grant>, clock: Time) {
    && (forall i, j :: 0 <= i < j < |grants| ==> grants[i].time <= grants[j].time)
    && (forall i :: 0 <= i < |grants| ==> grants[i].time <= clock)
  }

  /** The deque is the newest part of the log. */
  ghost predicate IsSuffix(history: seq<Time>, grants: seq<Grant>) {
    && |history| <= |grants|
    && forall i :: 0 <= i < |history| ==> history[i] == grants[|grants| - |history| + i].time
  }

  /** What left the deque and is not counted as lost had left the window. */
  ghost predicate OnlyStaleForgotten(history: seq<Time>, grants: seq<Grant>, lost: nat, cutoff: Time) {
    forall i :: lost <= i < |grants| - |history| ==> grants[i].time <= cutoff
  }

  /** When an unbounded log would let a request checked at `now` go, under the given limit. */
  function Due(grants: seq<Grant>, limit: nat, window: nat, now: Time): Time {
    if limit > |grants| || limit == 0 then now
    else
      var earliest := grants[|grants| - limit].time + window;
      if earliest > now then earliest else now
  }

  /** The grants a limit looks back on were all still vouched for. */
  predicate Vouched(count: nat, limit: nat, lost: nat) {
    limit > count || count - limit >= lost
  }

  /** Grant number `i` waited until an unbounded log would have let it go. */
  ghost predicate AsLogged(grants: seq<Grant>, window: nat, i: nat)
    requires i < |grants|
  {
    var g := grants[i];
    && g.time >= g.until
    && (Vouched(i, g.limit, g.lost) ==> g.until == Due(grants[..i], g.limit, window, g.checked))
  }

  ghost predicate WaiterInv(r: Recorded, window: nat) {
    r.state.waiter.Some? ==>
      var w := r.state.waiter.value;
      && w.limit > 0
      && (Vouched(|r.grants|, w.limit, r.lostAtCheck) ==> w.until == Due(r.grants, w.limit, window, r.checked))
  }

  ghost predicate Inv(r: Recorded, window: nat) {
    && Ordered(r.grants, r.clock)
    && |r.state.history| <= r.state.limit
    && IsSuffix(r.state.history, r.grants)
    && OnlyStaleForgotten(r.state.history, r.grants, r.lost, r.clock - window)
    && WaiterInv(r, window)
    && (forall i :: 0 <= i < |r.grants| ==> AsLogged(r.grants, window, i))
  }

  lemma {:induction false} PruneCuts(history: seq<Time>, cutoff: Time) returns (k: nat)
    ensures k <= |history| && Prune(history, cutoff) == history[k..]
    ensures forall i :: 0 <= i < k ==> history[i] <= cutoff
    ensures k < |history| ==> history[k] > cutoff
  {
    if history != [] && history[0] <= cutoff {
      var k' := PruneCuts(history[1..], cutoff);
      k := k' + 1;
      assert history[1..][k'..] == history[k..];
      assert forall i :: 1 <= i < k ==> history[i] == history[1..][i - 1];
    } else {
      k := 0;
    }
  }

  lemma CheckKeeps(r: Recorded, window: nat, now: Time)
    requires Inv(r, window) && Enabled(r.state, Check(now)) && now >= r.clock
    ensures Inv(Next(r, window, Check(now)), window)
  {
    hide AsLogged;
    var h, g, limit := r.state.history, r.grants, r.state.limit;
    var k := PruneCuts(h, now - window);
    var pruned := h[k..];
    assert IsSuffix(pruned, g);
    forall i | r.lost <= i < |g| - |pruned|
      ensures g[i].time <= now - window
    {
      if i >= |g| - |h| {
        assert h[i - (|g| - |h|)] == g[i].time;
      }
    }
  }

  lemma RecordKeeps(r: Recorded, window: nat, now: Time)
    requires Inv(r, window) && Enabled(r.state, Record(now)) && now >= r.clock
    ensures Inv(Next(r, window, Record(now)), window)
  {
    hide AsLogged, Due;
    var r' := Next(r, window, Record(now));
    forall i | 0 <= i < |r'.grants|
      ensures AsLogged(r'.grants, window, i)
    {
      AsLoggedStays(r, window, now, i);
    }
    CutKeeps(r.state.history + [now], r'.grants, r.state.limit, r.lost, now - window);
  }

  lemma AsLoggedStays(r: Recorded, window: nat, now: Time, i: nat)
    requires Inv(r, window) && Enabled(r.state, Record(now)) && i <= |r.grants|
    ensures AsLogged(Next(r, window, Record(now)).grants, window, i)
  {
    var g := Next(r, window, Record(now)).grants;
    assert g[..i] == r.grants[..i];
    if i < |r.grants| {
      assert AsLogged(r.grants, window, i);
    } else {
      assert r.grants[..i] == r.grants;
    }
  }

  /** Cutting a suffix of the log to its newest stamps forgets only stale grants beyond the loss accounted. */
  lemma CutKeeps(history: seq<Time>, grants: seq<Grant>, kept: nat, lost: nat, cutoff: Time)
    requires IsSuffix(history, grants)
    requires OnlyStaleForgotten(history, grants, lost, cutoff)
    requires forall i, j :: 0 <= i < j < |grants| ==> grants[i].time <= grants[j].time
    ensures var cut := Newest(history, kept);
      && IsSuffix(cut, grants)
      && OnlyStaleForgotten(cut, grants, Larger(lost, LostTo(history, kept, cutoff, |grants| - |history|)), cutoff)
  {
    var first, cut := |grants| - |history|, Newest(history, kept);
    var lost' := Larger(lost, LostTo(history, kept, cutoff, first));
    forall i | lost' <= i < |grants| - |cut|
      ensures grants[i].time <= cutoff
    {
      if i >= first {
        var d := |history| - kept - 1;
        assert grants[first + d].time == history[d] <= cutoff;
      }
    }
  }

  lemma SetLimitKeeps(r: Recorded, window: nat, n: nat)
    requires Inv(r, window)
    ensures Inv(Next(r, window, SetLimit(n)), window)
  {
    hide AsLogged, Due;
    CutKeeps(r.state.history, r.grants, n, r.lost, r.clock - window);
  }

  lemma {:induction false} InvHolds(limit: nat, window: nat, start: Time, events: seq<Event>)
    requires Possible(limit, window, start, events)
    ensures Inv(Run(limit, window, start, events), window)
  {
    if events != [] {
      var n := |events| - 1;
      InvHolds(limit, window, start, events[..n]);
      var r := Run(limit, window, start, events[..n]);
      hide Inv, Next, Step;
      match events[n]
      case Check(now) => CheckKeeps(r, window, now);
      case Record(now) => RecordKeeps(r, window, now);
      case SetLimit(m) => SetLimitKeeps(r, window, m);
    }
  }

  // ---- What every run guarantees ----

  /** Main result. Over every run, changes of the limit included, each grant whose look-back the deque still
      vouched for waited exactly until an unbounded log would have let it go: the later of its check and one
      window after the grant `limit` places before it; and no grant comes before its wait is over. */
  lemma DecidesLikeUnboundedLog(limit: nat, window: nat, start: Time, events: seq<Event>, i: nat)
    requires Possible(limit, window, start, events)
    requires i < |Run(limit, window, start, events).grants|
    ensures var grants := Run(limit, window, start, events).grants; var g := grants[i];
      && g.time >= g.until
      && (Vouched(i, g.limit, g.lost) ==> g.until == Due(grants[..i], g.limit, window, g.checked))
  {
    InvHolds(limit, window, start, events);
    assert AsLogged(Run(limit, window, start, events).grants, window, i);
  }

  /** The limits a run goes through, the first one included. */
  function Limits(limit: nat, events: seq<Event>): (limits: seq<nat>)
    ensures limits != []
  {
    if events == [] then [limit]
    else
      var n := |events| - 1;
      var earlier := Limits(limit, events[..n]);
      if events[n].SetLimit? then earlier + [events[n].limit] else earlier
  }

  ghost predicate Lowers(limits: seq<nat>, i: nat) {
    0 < i < |limits| && limits[i] < limits[i - 1]
  }

  ghost predicate NeverLowered(limits: seq<nat>) {
    forall i :: !Lowers(limits, i)
  }

  ghost predicate Raises(limits: seq<nat>, i: nat) {
    0 < i < |limits| && limits[i] > limits[i - 1]
  }

  /** No raise comes after a lowering, at whatever distance. */
  ghost predicate NoRaiseAfterLowering(limits: seq<nat>) {
    forall i, j :: i < j && Lowers(limits, i) ==> !Raises(limits, j)
  }

  lemma FrontKeeps(limits: seq<nat>, n: nat)
    ensures NoRaiseAfterLowering(limits + [n]) ==> NoRaiseAfterLowering(limits)
    ensures NeverLowered(limits + [n]) ==> NeverLowered(limits)
    ensures NoRaiseAfterLowering(limits + [n]) && limits != [] && n > limits[|limits| - 1] ==> NeverLowered(limits)
  {
    var longer := limits + [n];
    forall i: nat
      ensures Lowers(limits, i) ==> i < |limits| && Lowers(longer, i)
      ensures Raises(limits, i) ==> Raises(longer, i)
    {
    }
    if limits != [] && n > limits[|limits| - 1] {
      assert Raises(longer, |limits|);
    }
  }

  ghost predicate AllVouched(r: Recorded) {
    && (forall i :: 0 <= i < |r.grants| ==> Vouched(i, r.grants[i].limit, r.grants[i].lost))
    && (r.state.waiter.Some? ==> Vouched(|r.grants|, r.state.waiter.value.limit, r.lostAtCheck))
  }

  /** What is lost lies before the last `limit` grants. */
  ghost predicate LostEarly(r: Recorded) {
    r.lost == 0 || r.lost + r.state.limit <= |r.grants|
  }

  lemma VouchedStep(r: Recorded, window: nat, e: Event)
    requires Enabled(r.state, e) && AllVouched(r) && LostEarly(r)
    requires |r.state.history| <= |r.grants|
    requires e.SetLimit? ==> e.limit <= r.state.limit
    ensures AllVouched(Next(r, window, e)) && LostEarly(Next(r, window, e))
  {
    hide Prune;
  }

  /** With a limit that only rises, a waiter facing a full deque sleeps until its oldest stamp has left the window. */
  ghost predicate NothingLost(r: Recorded, window: nat) {
    && r.lost == 0 && r.lostAtCheck == 0
    && |r.state.history| <= r.state.limit
    && (r.state.waiter.Some? ==>
          var w := r.state.waiter.value;
          && 0 < w.limit <= r.state.limit
          && |r.state.history| <= w.limit
          && (|r.state.history| == w.limit ==> w.until >= r.state.history[0] + window))
  }

  lemma NothingLostStep(r: Recorded, window: nat, e: Event)
    requires NothingLost(r, window) && Enabled(r.state, e)
    requires e.SetLimit? ==> e.limit >= r.state.limit
    ensures NothingLost(Next(r, window, e), window)
  {
    if e.Check? {
      var k := PruneCuts(r.state.history, e.now - window);
    }
  }

  /** As long as no raise comes after a lowering the deque vouches for every grant; and while the limit only rises
      nothing is ever lost. */
  lemma {:induction false} RaisesFirstVouched(limit: nat, window: nat, start: Time, events: seq<Event>)
    requires Possible(limit, window, start, events) && NoRaiseAfterLowering(Limits(limit, events))
    ensures var r := Run(limit, window, start, events); var limits := Limits(limit, events);
      && r.state.limit == limits[|limits| - 1]
      && AllVouched(r) && LostEarly(r)
      && (NeverLowered(limits) ==> NothingLost(r, window))
  {
    if events == [] {
      assert NothingLost(Fresh(limit, start), window);
    } else {
      var n := |events| - 1;
      var front, e := events[..n], events[n];
      var earlier, r := Limits(limit, front), Run(limit, window, start, front);
      if e.SetLimit? {
        FrontKeeps(earlier, e.limit);
      }
      RaisesFirstVouched(limit, window, start, front);
      InvHolds(limit, window, start, front);
      assert Run(limit, window, start, events) == Next(r, window, e);
      hide Inv, NothingLost, Run, Possible, NoRaiseAfterLowering, NeverLowered;
      StepVouched(r, window, e, earlier);
    }
  }

  /** One event after limits in which no raise came after a lowering, and after which none does. */
  lemma StepVouched(r: Recorded, window: nat, e: Event, earlier: seq<nat>)
    requires Inv(r, window) && Enabled(r.state, e) && AllVouched(r) && LostEarly(r)
    requires earlier != [] && r.state.limit == earlier[|earlier| - 1]
    requires NeverLowered(earlier) ==> NothingLost(r, window)
    requires e.SetLimit? && e.limit > r.state.limit ==> NeverLowered(earlier)
    ensures AllVouched(Next(r, window, e)) && LostEarly(Next(r, window, e))
    ensures NeverLowered(if e.SetLimit? then earlier + [e.limit] else earlier) ==> NothingLost(Next(r, window, e), window)
    ensures Next(r, window, e).state.limit == if e.SetLimit? then e.limit else r.state.limit
  {
    if e.SetLimit? {
      FrontKeeps(earlier, e.limit);
    }
    if NeverLowered(if e.SetLimit? then earlier + [e.limit] else earlier) {
      assert e.SetLimit? ==> !Lowers(earlier + [e.limit], |earlier|);
      NothingLostStep(r, window, e);
    }
    if e.SetLimit? && e.limit > r.state.limit {
      NothingLostStep(r, window, e);
      hide Prune;
    } else {
      VouchedStep(r, window, e);
    }
  }

  /** Every half-open window of the configured length holds at most as many grants as the limit its last grant was
      checked against. */
  ghost predicate WithinBound(grants: seq<Grant>, window: nat) {
    forall x: Time, a: nat, b: nat :: InWindow(grants, x, a, b, window) ==> b - a + 1 <= grants[b].limit
  }

  ghost predicate InWindow(grants: seq<Grant>, x: Time, a: nat, b: nat, window: nat) {
    a <= b < |grants| && forall i :: a <= i <= b ==> x <= grants[i].time < x + window
  }

  /** As long as no raise comes after a lowering no window holds too many grants; with a fixed limit that is the limit
      itself. */
  lemma WindowBound(limit: nat, window: nat, start: Time, events: seq<Event>)
    requires Possible(limit, window, start, events) && NoRaiseAfterLowering(Limits(limit, events))
    ensures WithinBound(Run(limit, window, start, events).grants, window)
  {
    var grants := Run(limit, window, start, events).grants;
    RaisesFirstVouched(limit, window, start, events);
    InvHolds(limit, window, start, events);
    forall x: Time, a: nat, b: nat | InWindow(grants, x, a, b, window)
      ensures b - a + 1 <= grants[b].limit
    {
      DecidesLikeUnboundedLog(limit, window, start, events, b);
      LimitsPositive(limit, window, start, events, b);
      var n := grants[b].limit;
      assert n <= b ==> grants[..b][b - n] == grants[b - n];
      hide Inv, Run, Possible, Due;
      FewInWindow(grants, x, a, b, window, Due(grants[..b], n, window, grants[b].checked));
    }
  }

  /** A grant that waited for the grant `limit` places before it to leave the window shares its window with fewer. */
  lemma FewInWindow(grants: seq<Grant>, x: Time, a: nat, b: nat, window: nat, due: Time)
    requires InWindow(grants, x, a, b, window) && grants[b].limit > 0
    requires due == Due(grants[..b], grants[b].limit, window, grants[b].checked) && grants[b].time >= due
    ensures b - a + 1 <= grants[b].limit
  {
    var n := grants[b].limit;
    if n <= b {
      assert grants[..b][b - n] == grants[b - n];
      assert due >= grants[b - n].time + window;
    }
  }

  lemma {:induction false} LimitsPositive(limit: nat, window: nat, start: Time, events: seq<Event>, i: nat)
    requires Possible(limit, window, start, events)
    requires i < |Run(limit, window, start, events).grants|
    ensures Run(limit, window, start, events).grants[i].limit > 0
  {
    var n := |events| - 1;
    var r := Run(limit, window, start, events[..n]);
    if i < |r.grants| {
      LimitsPositive(limit, window, start, events[..n], i);
    } else {
      InvHolds(limit, window, start, events[..n]);
    }
  }

  // ---- A raise after a lowering breaks the bound ----

  lemma Then(limit: nat, window: nat, start: Time, events: seq<Event>, e: Event)
    requires Possible(limit, window, start, events)
    requires Enabled(Run(limit, window, start, events).state, e) && Timely(Run(limit, window, start, events), e)
    ensures Possible(limit, window, start, events + [e])
    ensures Run(limit, window, start, events + [e]) == Next(Run(limit, window, start, events), window, e)
    ensures Limits(limit, events + [e]) == Limits(limit, events) + if e.SetLimit? then [e.limit] else []
  {
    assert (events + [e])[..|events|] == events;
  }

  /** The deque holds `held` stamps, all of time `t`, and the log holds `given` grants, all of time `t`. */
  ghost predicate AllAt(r: Recorded, t: Time, limit: nat, held: nat, given: nat) {
    && r.state.waiter == None && r.state.limit == limit && r.clock == t
    && |r.state.history| == held && (forall i :: 0 <= i < held ==> r.state.history[i] == t)
    && |r.grants| == given && (forall i :: 0 <= i < given ==> r.grants[i].time == t)
  }

  /** The last of some grants was checked against the given limit. */
  ghost predicate LastAgainst(grants: seq<Grant>, limit: nat) {
    grants != [] && grants[|grants| - 1].limit == limit
  }

  /** While the deque has room, any number of grants are given at one instant. */
  lemma {:induction false} Burst(limit: nat, window: nat, t: Time, before: seq<Event>, inForce: nat, held: nat, given: nat, k: nat)
    returns (events: seq<Event>)
    requires window > 0 && held + k <= inForce
    requires Possible(limit, window, t, before) && AllAt(Run(limit, window, t, before), t, inForce, held, given)
    ensures Possible(limit, window, t, events) && AllAt(Run(limit, window, t, events), t, inForce, held + k, given + k)
    ensures Limits(limit, events) == Limits(limit, before)
    ensures k == 0 ==> events == before
    ensures k > 0 ==> LastAgainst(Run(limit, window, t, events).grants, inForce)
    decreases k
  {
    hide Possible, Run, Next, Step, AllAt, Enabled, Timely, Limits, LastAgainst;
    events := before;
    if k > 0 {
      var r := Run(limit, window, t, before);
      GrantAtOnce(r, window, t, inForce, held, given);
      Then(limit, window, t, events, Check(t));
      events := events + [Check(t)];
      Then(limit, window, t, events, Record(t));
      events := events + [Record(t)];
      events := Burst(limit, window, t, events, inForce, held + 1, given + 1, k - 1);
    }
  }

  lemma GrantAtOnce(r: Recorded, window: nat, t: Time, inForce: nat, held: nat, given: nat)
    requires window > 0 && held < inForce && AllAt(r, t, inForce, held, given)
    ensures Enabled(r.state, Check(t)) && Timely(r, Check(t))
    ensures var mid := Next(r, window, Check(t));
      && Enabled(mid.state, Record(t)) && Timely(mid, Record(t))
      && AllAt(Next(mid, window, Record(t)), t, inForce, held + 1, given + 1)
      && LastAgainst(Next(mid, window, Record(t)).grants, inForce)
  {
    assert Prune(r.state.history, t - window) == r.state.history;
  }

  /** How many stamps are left after setting limits one after another. */
  function Cut(held: nat, limits: seq<nat>): nat {
    if limits == [] then held else Cut(if held > limits[0] then limits[0] else held, limits[1..])
  }

  function LastOr(limits: seq<nat>, limit: nat): nat {
    if limits == [] then limit else limits[|limits| - 1]
  }

  lemma CutAt(r: Recorded, window: nat, t: Time, inForce: nat, held: nat, given: nat, n: nat)
    requires AllAt(r, t, inForce, held, given)
    ensures AllAt(Next(r, window, SetLimit(n)), t, n, if held > n then n else held, given)
    ensures Next(r, window, SetLimit(n)).grants == r.grants
  {
  }

  /** Setting limits one after another, with no requests in between. */
  lemma {:induction false} SetAll(limit: nat, window: nat, t: Time, before: seq<Event>, inForce: nat, held: nat, given: nat, limits: seq<nat>)
    returns (events: seq<Event>)
    requires Possible(limit, window, t, before) && AllAt(Run(limit, window, t, before), t, inForce, held, given)
    ensures Possible(limit, window, t, events)
    ensures AllAt(Run(limit, window, t, events), t, LastOr(limits, inForce), Cut(held, limits), given)
    ensures Run(limit, window, t, events).grants == Run(limit, window, t, before).grants
    ensures Limits(limit, events) == Limits(limit, before) + limits
    decreases |limits|
  {
    hide Possible, Run, Next, Step, AllAt, Limits;
    events := before;
    if limits != [] {
      var n := limits[0];
      CutAt(Run(limit, window, t, before), window, t, inForce, held, given, n);
      Then(limit, window, t, before, SetLimit(n));
      events := SetAll(limit, window, t, before + [SetLimit(n)], n, if held > n then n else held, given, limits[1..]);
      assert [n] + limits[1..] == limits;
    }
  }

  /** A lowering at `i`, then one limit up to `k`, then a raise. */
  ghost predicate Dip(limits: seq<nat>, i: nat, k: nat) {
    && Lowers(limits, i) && i <= k && Raises(limits, k + 1)
    && forall m :: i <= m <= k ==> limits[m] == limits[i]
  }

  lemma {:induction false} FindDip(limits: seq<nat>, i: nat, k: nat, j: nat) returns (from: nat, to: nat)
    requires Lowers(limits, i) && i <= k < j && Raises(limits, j)
    requires forall m :: i <= m <= k ==> limits[m] == limits[i]
    ensures Dip(limits, from, to)
    decreases j - k
  {
    if limits[k + 1] > limits[k] {
      from, to := i, k;
    } else if limits[k + 1] < limits[k] {
      from, to := FindDip(limits, k + 1, k + 1, j);
    } else {
      from, to := FindDip(limits, i, k + 1, j);
    }
  }

  lemma CutNone(limits: seq<nat>)
    ensures Cut(0, limits) == 0
  {
    if limits != [] {
      CutNone(limits[1..]);
    }
  }

  lemma {:induction false} CutDip(held: nat, limits: seq<nat>, low: nat)
    requires limits != [] && limits[|limits| - 1] > low && held >= low && (|limits| == 1 ==> held == low)
    requires forall m :: 0 <= m < |limits| - 1 ==> limits[m] == low
    ensures Cut(held, limits) == low
  {
    if |limits| > 1 {
      assert limits[0] == low;
      CutDip(low, limits[1..], low);
    }
  }

  /** Whatever the limits before and after a dip, requests can use up the limit before it and then what the raise adds,
      all at one instant: more than the limit in force. */
  lemma DipBreaksBound(limits: seq<nat>, i: nat, k: nat, window: nat, t: Time) returns (events: seq<Event>)
    requires Dip(limits, i, k) && window > 0
    ensures Possible(limits[0], window, t, events) && Limits(limits[0], events) == limits
    ensures var grants := Run(limits[0], window, t, events).grants;
      && |grants| == limits[i - 1] + limits[k + 1] - limits[k] > limits[k + 1]
      && (forall g :: 0 <= g < |grants| ==> grants[g].time == t)
      && LastAgainst(grants, limits[k + 1])
  {
    var limit, high, low, raised := limits[0], limits[i - 1], limits[k], limits[k + 1];
    var before, dip, after := limits[1..i], limits[i..k + 2], limits[k + 2..];
    assert AllAt(Run(limit, window, t, []), t, limit, 0, 0);
    CutNone(before);
    CutDip(high, dip, low);
    assert LastOr(before, limit) == high && LastOr(dip, high) == raised;
    assert [limit] + before + dip + after == limits;
    hide AllAt, Run, Possible, Cut, LastOr, Dip, Lowers, Raises;
    events := SetAll(limit, window, t, [], limit, 0, 0, before);
    events := Burst(limit, window, t, events, high, 0, 0, high);
    events := SetAll(limit, window, t, events, high, high, high, dip);
    events := Burst(limit, window, t, events, raised, low, high, raised - low);
    events := SetAll(limit, window, t, events, raised, raised, high + (raised - low), after);
    GivenAt(Run(limit, window, t, events), t, LastOr(after, raised), Cut(raised, after), high + (raised - low));
  }

  lemma GivenAt(r: Recorded, t: Time, limit: nat, held: nat, given: nat)
    requires AllAt(r, t, limit, held, given)
    ensures |r.grants| == given && forall i :: 0 <= i < given ==> r.grants[i].time == t
  {
  }

  /** For every limit, lower limit and limit raised above that, lowering and raising at once lets
      limit + raised - lower grants, more than either limit allows, into one instant. */
  lemma LowerThenRaiseBreaksBound(limit: nat, lower: nat, raised: nat, window: nat, t: Time) returns (events: seq<Event>)
    requires lower < limit && lower < raised && window > 0
    ensures Possible(limit, window, t, events) && Limits(limit, events) == [limit, lower, raised]
    ensures var grants := Run(limit, window, t, events).grants;
      && |grants| == limit + raised - lower && |grants| > limit && |grants| > raised
      && forall i :: 0 <= i < |grants| ==> grants[i].time == t
  {
    var limits := [limit, lower, raised];
    assert Dip(limits, 1, 1);
    events := DipBreaksBound(limits, 1, 1, window, t);
  }

  /** Every run that goes through these limits keeps the window bound. */
  ghost predicate AlwaysWithinBound(limits: seq<nat>, window: nat, start: Time)
    requires limits != []
  {
    forall events :: Possible(limits[0], window, start, events) && Limits(limits[0], events) == limits ==>
                       WithinBound(Run(limits[0], window, start, events).grants, window)
  }

  /** Main result: for any sequence of limits, all runs through it keep the window bound exactly when no raise comes
      after a lowering (or the window is empty). */
  lemma BoundKeptIff(limits: seq<nat>, window: nat, start: Time)
    requires limits != []
    ensures AlwaysWithinBound(limits, window, start) <==> window == 0 || NoRaiseAfterLowering(limits)
  {
    if window == 0 {
      forall events | Possible(limits[0], window, start, events) && Limits(limits[0], events) == limits
        ensures WithinBound(Run(limits[0], window, start, events).grants, window)
      {
        EmptyWindows(Run(limits[0], window, start, events).grants);
      }
    } else if NoRaiseAfterLowering(limits) {
      forall events | Possible(limits[0], window, start, events) && Limits(limits[0], events) == limits
        ensures WithinBound(Run(limits[0], window, start, events).grants, window)
      {
        WindowBound(limits[0], window, start, events);
      }
    } else {
      var i, j :| i < j && Lowers(limits, i) && Raises(limits, j);
      var from, to := FindDip(limits, i, i, j);
      var events := DipBreaksBound(limits, from, to, window, start);
      TooManyAtOnce(Run(limits[0], window, start, events).grants, limits[to + 1], window, start);
    }
  }

  lemma EmptyWindows(grants: seq<Grant>)
    ensures WithinBound(grants, 0)
  {
    forall x: Time, a: nat, b: nat
      ensures !InWindow(grants, x, a, b, 0)
    {
      if a <= b < |grants| {
        assert !(x <= grants[a].time < x + 0);
      }
    }
  }

  lemma TooManyAtOnce(grants: seq<Grant>, limit: nat, window: nat, t: Time)
    requires window > 0 && |grants| > limit && LastAgainst(grants, limit)
    requires forall i :: 0 <= i < |grants| ==> grants[i].time == t
    ensures !WithinBound(grants, window)
  {
    assert InWindow(grants, t, 0, |grants| - 1, window);
  }
}
