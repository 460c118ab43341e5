/** The distributed token bucket: a Lua script over one Redis hash that expires a minute after its last call.
    Times are seconds. */
module TokenBucket {
  import opened Wrappers

  type Time = real

  const EXPIRY: Time := 60.0

  datatype Bucket = Bucket(tokens: real, lastRefill: Time)

  datatype Settings = Settings(capacity: real, refillRate: real)

  predicate Sound(c: Settings) {
    c.capacity >= 0.0 && c.refillRate >= 0.0
  }

  /** The limiter's settings: room for `maxRequests`, refilled once per time window. */
  function PerWindow(maxRequests: nat, timeWindow: nat): Settings
    requires timeWindow > 0
  {
    Settings(maxRequests as real, maxRequests as real / timeWindow as real)
  }

  datatype Call = Call(now: Time, tokens: nat)

  function Minimum(x: real, y: real): real { if x <= y then x else y }

  function Refill(c: Settings, elapsed: real): real {
    elapsed * c.refillRate
  }

  /** The tokens in the bucket when the script has refilled it; a missing bucket is full. */
  function Level(c: Settings, stored: Option<Bucket>, now: Time): real {
    match stored
    case None => c.capacity
    case Some(b) => Minimum(c.capacity, b.tokens + Refill(c, now - b.lastRefill))
  }

  predicate Admits(c: Settings, stored: Option<Bucket>, call: Call) {
    Level(c, stored, call.now) >= call.tokens as real
  }

  function Step(c: Settings, stored: Option<Bucket>, call: Call): Option<Bucket> {
    var level := Level(c, stored, call.now);
    Some(Bucket(if level >= call.tokens as real then level - call.tokens as real else level, call.now))
  }

  /** The hash as Redis sees it: gone a minute after its last call. */
  function Present(stored: Option<Bucket>, now: Time): Option<Bucket> {
    if stored.Some? && now >= stored.value.lastRefill + EXPIRY then None else stored
  }

  class TokenBucket {
    const settings: Settings
    var stored: Option<Bucket>

    constructor (maxRequests: nat, timeWindow: nat)
      requires timeWindow > 0
      ensures settings == PerWindow(maxRequests, timeWindow) && stored == None
    {
      settings, stored := PerWindow(maxRequests, timeWindow), None;
    }

    /** The script. */
    method Eval(call: Call) returns (result: nat)
      modifies this
      ensures stored == Step(settings, Present(old(stored), call.now), call)
      ensures result == if Admits(settings, Present(old(stored), call.now), call) then 1 else 0
    {
      hide Refill;
      var bucket := Present(stored, call.now);
      var tokens := if bucket.Some? then bucket.value.tokens else settings.capacity;
      var lastRefill := if bucket.Some? then bucket.value.lastRefill else call.now;
      var tokensToAdd := Refill(settings, call.now - lastRefill);
      NoTimeNoRefill(settings);
      tokens := Minimum(settings.capacity, tokens + tokensToAdd);
      if tokens >= call.tokens as real {
        tokens := tokens - call.tokens as real;
        stored := Some(Bucket(tokens, call.now));
        return 1;
      } else {
        stored := Some(Bucket(tokens, call.now));
        return 0;
      }
    }
  }

  // ---- Refill arithmetic ----

  lemma NoTimeNoRefill(c: Settings)
    ensures Refill(c, 0.0) == 0.0
  {
  }

  lemma RefillAdds(c: Settings, a: real, b: real)
    ensures Refill(c, a + b) == Refill(c, a) + Refill(c, b)
  {
  }

  lemma RefillGrows(c: Settings, a: real, b: real)
    requires Sound(c) && a <= b
    ensures Refill(c, a) <= Refill(c, b)
  {
    RefillAdds(c, a, b - a);
    assert Refill(c, b - a) >= 0.0;
  }

  lemma RefillNonNegative(c: Settings, a: real)
    requires Sound(c) && a >= 0.0
    ensures Refill(c, a) >= 0.0
  {
  }

  // ---- Runs: `expiring` tells whether the key's expiry is in force ----

  function Stored(c: Settings, calls: seq<Call>, expiring: bool): Option<Bucket>
    decreases |calls|, 0
  {
    if calls == [] then None
    else
      var n := |calls| - 1;
      Step(c, Seen(c, calls[..n], expiring, calls[n].now), calls[n])
  }

  /** What a call at `now` finds after the given calls. */
  function Seen(c: Settings, calls: seq<Call>, expiring: bool, now: Time): Option<Bucket>
    decreases |calls|, 1
  {
    var stored := Stored(c, calls, expiring);
    if expiring then Present(stored, now) else stored
  }

  predicate Admitted(c: Settings, calls: seq<Call>, expiring: bool, i: nat)
    requires i < |calls|
  {
    Admits(c, Seen(c, calls[..i], expiring, calls[i].now), calls[i])
  }

  ghost predicate InOrder(calls: seq<Call>) {
    forall i, j :: 0 <= i < j < |calls| ==> calls[i].now <= calls[j].now
  }

  /** Tokens handed out by the calls from number `from` on. */
  function Granted(c: Settings, calls: seq<Call>, expiring: bool, from: nat): nat {
    if |calls| <= from then 0
    else
      var n := |calls| - 1;
      Granted(c, calls[..n], expiring, from) + if Admitted(c, calls, expiring, n) then calls[n].tokens else 0
  }

  /** Expiry comes no sooner than a full refill. */
  predicate RefillsBeforeExpiry(c: Settings) {
    c.capacity <= Refill(c, EXPIRY)
  }

  lemma LevelBetween(c: Settings, stored: Option<Bucket>, now: Time)
    requires Sound(c)
    requires stored.Some? ==> 0.0 <= stored.value.tokens && stored.value.lastRefill <= now
    ensures 0.0 <= Level(c, stored, now) <= c.capacity
    ensures stored.Some? ==> Level(c, stored, now) <= stored.value.tokens + Refill(c, now - stored.value.lastRefill)
  {
    hide Refill;
    if stored.Some? {
      RefillNonNegative(c, now - stored.value.lastRefill);
    }
  }

  /** A bucket that expired would have been full anyway. */
  lemma LevelUnexpired(c: Settings, b: Bucket, now: Time)
    requires Sound(c) && 0.0 <= b.tokens && b.lastRefill <= now && RefillsBeforeExpiry(c)
    ensures Level(c, Present(Some(b), now), now) == Level(c, Some(b), now)
  {
    hide Refill;
    if now >= b.lastRefill + EXPIRY {
      RefillGrows(c, EXPIRY, now - b.lastRefill);
    }
  }

  /** The stored level never leaves [0, capacity]. */
  lemma {:induction false} LevelInRange(c: Settings, calls: seq<Call>, expiring: bool)
    requires Sound(c) && InOrder(calls)
    ensures calls == [] <==> Stored(c, calls, expiring) == None
    ensures calls != [] ==>
      var b := Stored(c, calls, expiring).value;
      0.0 <= b.tokens <= c.capacity && b.lastRefill == calls[|calls| - 1].now
  {
    hide Level;
    if calls != [] {
      var n := |calls| - 1;
      LevelInRange(c, calls[..n], expiring);
      LevelBetween(c, Seen(c, calls[..n], expiring, calls[n].now), calls[n].now);
    }
  }

  /** One more call: what it is handed and what it leaves together are the level it found. */
  lemma Unrolled(c: Settings, front: seq<Call>, call: Call, expiring: bool, from: nat)
    requires from <= |front|
    ensures var calls := front + [call];
      && Stored(c, calls, expiring).Some?
      && Stored(c, calls, expiring) == Step(c, Seen(c, front, expiring, call.now), call)
      && Granted(c, calls, expiring, from) as real + Stored(c, calls, expiring).value.tokens
         == Granted(c, front, expiring, from) as real + Level(c, Seen(c, front, expiring, call.now), call.now)
  {
    hide Level, Seen;
    assert (front + [call])[..|front|] == front;
  }

  /** From call number `from` on, the tokens handed out so far and the level left together never exceed the
      capacity plus the refill since that call. */
  lemma {:induction false} GrantedAndLeft(c: Settings, calls: seq<Call>, expiring: bool, from: nat)
    requires Sound(c) && InOrder(calls) && from < |calls|
    requires expiring ==> RefillsBeforeExpiry(c)
    ensures Stored(c, calls, expiring).Some?
    ensures Granted(c, calls, expiring, from) as real + Stored(c, calls, expiring).value.tokens
            <= c.capacity + Refill(c, calls[|calls| - 1].now - calls[from].now)
  {
    hide Level, Refill, Present, Stored, Granted, Seen;
    var n := |calls| - 1;
    var front, call := calls[..n], calls[n];
    assert calls == front + [call];
    Unrolled(c, front, call, expiring, from);
    if n == from {
      SeenInRange(c, front, expiring, call.now);
      NoTimeNoRefill(c);
      NoneGranted(c, front, expiring);
      assert call.now - calls[from].now == 0.0;
    } else {
      GrantedAndLeft(c, front, expiring, from);
      SeenGrowth(c, front, expiring, call.now);
      var t0, t1, t2 := calls[from].now, front[n - 1].now, call.now;
      RefillAdds(c, t1 - t0, t2 - t1);
      assert (t1 - t0) + (t2 - t1) == t2 - t0;
    }
  }

  lemma SeenGrowth(c: Settings, calls: seq<Call>, expiring: bool, now: Time)
    requires Sound(c) && InOrder(calls) && calls != [] && calls[|calls| - 1].now <= now
    requires expiring ==> RefillsBeforeExpiry(c)
    requires Stored(c, calls, expiring).Some?
    ensures Level(c, Seen(c, calls, expiring, now), now)
            <= Stored(c, calls, expiring).value.tokens + Refill(c, now - calls[|calls| - 1].now)
  {
    hide Level, Refill, Present, Stored;
    LevelInRange(c, calls, expiring);
    var before := Stored(c, calls, expiring).value;
    LevelBetween(c, Some(before), now);
    if expiring {
      LevelUnexpired(c, before, now);
    }
  }

  lemma NoneGranted(c: Settings, calls: seq<Call>, expiring: bool)
    ensures Granted(c, calls, expiring, |calls|) == 0
  {
  }

  lemma SeenInRange(c: Settings, calls: seq<Call>, expiring: bool, now: Time)
    requires Sound(c) && InOrder(calls) && (calls != [] ==> calls[|calls| - 1].now <= now)
    ensures Level(c, Seen(c, calls, expiring, now), now) <= c.capacity
  {
    LevelInRange(c, calls, expiring);
    LevelBetween(c, Seen(c, calls, expiring, now), now);
  }

  /** Main result: over every run and every stretch of it, the tokens handed out are at most the capacity plus
      the refill over that stretch, also with the key's expiry in force when a full refill takes at most a
      minute. */
  lemma TokensBounded(c: Settings, calls: seq<Call>, expiring: bool, from: nat)
    requires Sound(c) && InOrder(calls) && from < |calls|
    requires expiring ==> RefillsBeforeExpiry(c)
    ensures Granted(c, calls, expiring, from) as real
            <= c.capacity + Refill(c, calls[|calls| - 1].now - calls[from].now)
  {
    GrantedAndLeft(c, calls, expiring, from);
    LevelInRange(c, calls, expiring);
  }

  // ---- When a call is admitted ----

  /** With all that was granted from call `j` on, `x` stays within the capacity and the refill since that call. */
  ghost predicate Within(c: Settings, calls: seq<Call>, expiring: bool, now: Time, x: real, j: nat)
    requires j < |calls|
  {
    Granted(c, calls, expiring, j) as real + x <= c.capacity + Refill(c, now - calls[j].now)
  }

  ghost predicate WithinAll(c: Settings, calls: seq<Call>, expiring: bool, now: Time, x: real) {
    x <= c.capacity && forall j :: 0 <= j < |calls| ==> Within(c, calls, expiring, now, x, j)
  }

  /** An amount is in the bucket exactly when it fits the capacity and, with all that was granted since, every earlier
      call's capacity and refill. */
  lemma {:induction false} LevelExact(c: Settings, calls: seq<Call>, expiring: bool, now: Time, x: real)
    requires Sound(c) && InOrder(calls) && (calls != [] ==> calls[|calls| - 1].now <= now)
    requires expiring ==> RefillsBeforeExpiry(c)
    ensures x <= Level(c, Seen(c, calls, expiring, now), now) <==> WithinAll(c, calls, expiring, now, x)
  {
    if calls == [] {
      NothingSeen(c, expiring, now);
    } else {
      var n := |calls| - 1;
      var front, call := calls[..n], calls[n];
      assert front + [call] == calls;
      LastBefore(calls);
      hide Refill, Level, Seen, WithinAll, InOrder;
      LevelExact(c, front, expiring, call.now, Before(c, front, call, expiring, now, x));
      LevelExactLast(c, front, call, expiring, now, x);
    }
  }

  /** What a call must have found for `x` to be in the bucket at a later time, apart from the capacity. */
  function Before(c: Settings, front: seq<Call>, call: Call, expiring: bool, now: Time, x: real): real {
    x + (if Admitted(c, front + [call], expiring, |front|) then call.tokens as real else 0.0) - Refill(c, now - call.now)
  }

  lemma LevelExactLast(c: Settings, front: seq<Call>, call: Call, expiring: bool, now: Time, x: real)
    requires Sound(c) && InOrder(front + [call]) && call.now <= now
    requires expiring ==> RefillsBeforeExpiry(c)
    requires var y := Before(c, front, call, expiring, now, x);
      y <= Level(c, Seen(c, front, expiring, call.now), call.now) <==> WithinAll(c, front, expiring, call.now, y)
    ensures x <= Level(c, Seen(c, front + [call], expiring, now), now) <==> WithinAll(c, front + [call], expiring, now, x)
  {
    hide Refill, Level, Seen, WithinAll, InOrder, Admitted;
    SeenExact(c, front, call, expiring, now);
    WithinAllLast(c, front, call, expiring, now, x);
  }

  lemma LastBefore(calls: seq<Call>)
    requires calls != [] && InOrder(calls)
    ensures var n := |calls| - 1; InOrder(calls[..n]) && (n > 0 ==> calls[..n][n - 1].now <= calls[n].now)
  {
  }

  /** One more call, told by the calls before it. */
  lemma WithinAllLast(c: Settings, front: seq<Call>, call: Call, expiring: bool, now: Time, x: real)
    ensures WithinAll(c, front + [call], expiring, now, x) <==>
            x <= c.capacity && WithinAll(c, front, expiring, call.now, Before(c, front, call, expiring, now, x))
  {
    var calls, n, y := front + [call], |front|, Before(c, front, call, expiring, now, x);
    WithinLast(c, front, call, expiring, now, x);
    hide Within, Before;
    forall j | 0 <= j < n
      ensures Within(c, calls, expiring, now, x, j) <==> Within(c, front, expiring, call.now, y, j)
    {
      WithinEarlier(c, front, call, expiring, now, x, j);
    }
  }

  lemma WithinLast(c: Settings, front: seq<Call>, call: Call, expiring: bool, now: Time, x: real)
    ensures Within(c, front + [call], expiring, now, x, |front|) <==> Before(c, front, call, expiring, now, x) <= c.capacity
  {
    hide Refill, Admitted;
    assert (front + [call])[..|front|] == front;
    NoneGranted(c, front, expiring);
  }

  lemma WithinEarlier(c: Settings, front: seq<Call>, call: Call, expiring: bool, now: Time, x: real, j: nat)
    requires j < |front|
    ensures Within(c, front + [call], expiring, now, x, j) <==>
            Within(c, front, expiring, call.now, Before(c, front, call, expiring, now, x), j)
  {
    hide Refill, Admitted;
    assert (front + [call])[..|front|] == front;
    var t := front[j].now;
    RefillAdds(c, call.now - t, now - call.now);
    assert (call.now - t) + (now - call.now) == now - t;
  }

  lemma NothingSeen(c: Settings, expiring: bool, now: Time)
    ensures Level(c, Seen(c, [], expiring, now), now) == c.capacity
  {
  }

  /** What a later call finds: the level the last call found less what it was granted, and the refill since, up to the
      capacity. */
  lemma SeenExact(c: Settings, front: seq<Call>, call: Call, expiring: bool, now: Time)
    requires Sound(c) && InOrder(front + [call]) && call.now <= now
    requires expiring ==> RefillsBeforeExpiry(c)
    ensures var calls := front + [call];
      var granted := if Admitted(c, calls, expiring, |front|) then call.tokens as real else 0.0;
      Level(c, Seen(c, calls, expiring, now), now) ==
      Minimum(c.capacity, Level(c, Seen(c, front, expiring, call.now), call.now) - granted + Refill(c, now - call.now))
  {
    var calls := front + [call];
    LevelInRange(c, calls, expiring);
    Unrolled(c, front, call, expiring, |front|);
    assert calls[..|front|] == front;
    NoneGranted(c, front, expiring);
    var stored := Stored(c, calls, expiring).value;
    if expiring {
      LevelUnexpired(c, stored, now);
    }
    hide Refill, Stored;
  }

  /** The decisions of the script on a run. */
  function Decisions(c: Settings, calls: seq<Call>, expiring: bool): seq<bool> {
    seq(|calls|, i requires 0 <= i < |calls| => Admitted(c, calls, expiring, i))
  }

  /** Tokens handed out by the calls from number `from` up to number `to`, going by a list of decisions. */
  function Spent(calls: seq<Call>, decisions: seq<bool>, from: nat, to: nat): nat
    requires from <= to <= |calls| && |decisions| == |calls|
  {
    if from == to then 0
    else Spent(calls, decisions, from, to - 1) + if decisions[to - 1] then calls[to - 1].tokens else 0
  }

  /** At `maxRequests` for each `timeWindow`, that many tokens come in during the time. */
  predicate Earned(maxRequests: nat, timeWindow: nat, tokens: int, elapsed: real) {
    tokens as real * timeWindow as real <= maxRequests as real * elapsed
  }

  /** With what was spent from call `from` on, call `n` stays within `maxRequests` tokens and `maxRequests` more for each
      `timeWindow` that has passed. */
  ghost predicate FitsSince(maxRequests: nat, timeWindow: nat, calls: seq<Call>, decisions: seq<bool>, from: nat, n: nat)
    requires from <= n < |calls| && |decisions| == |calls|
  {
    Earned(maxRequests, timeWindow, Spent(calls, decisions, from, n) + calls[n].tokens - maxRequests,
           calls[n].now - calls[from].now)
  }

  /** Call `n` asks for no more than a full bucket and fits every stretch of calls that ends with it. */
  ghost predicate Fits(maxRequests: nat, timeWindow: nat, calls: seq<Call>, decisions: seq<bool>, n: nat)
    requires n < |calls| && |decisions| == |calls|
  {
    && calls[n].tokens <= maxRequests
    && forall from :: 0 <= from < n ==> FitsSince(maxRequests, timeWindow, calls, decisions, from, n)
  }

  /** Each call is let through exactly when it fits. */
  ghost predicate JustFits(maxRequests: nat, timeWindow: nat, calls: seq<Call>, decisions: seq<bool>) {
    && |decisions| == |calls|
    && forall n :: 0 <= n < |calls| ==> (decisions[n] <==> Fits(maxRequests, timeWindow, calls, decisions, n))
  }

  lemma {:induction false} SpentIsGranted(c: Settings, calls: seq<Call>, expiring: bool, from: nat, to: nat)
    requires from <= to <= |calls|
    ensures Spent(calls, Decisions(c, calls, expiring), from, to) == Granted(c, calls[..to], expiring, from)
  {
    hide Seen, Admits;
    if from < to {
      SpentIsGranted(c, calls, expiring, from, to - 1);
      assert calls[..to][..to - 1] == calls[..to - 1];
    }
  }

  lemma EarnedIsRefill(maxRequests: nat, timeWindow: nat, tokens: int, elapsed: real)
    requires timeWindow > 0
    ensures Earned(maxRequests, timeWindow, tokens, elapsed) <==>
            tokens as real <= Refill(PerWindow(maxRequests, timeWindow), elapsed)
  {
    var m, w := maxRequests as real, timeWindow as real;
    var rate := m / w;
    assert rate * w == m;
    Reordered(elapsed, rate, w);
    Scaled(tokens as real, elapsed * rate, w);
  }

  lemma Reordered(elapsed: real, rate: real, w: real)
    ensures elapsed * rate * w == rate * w * elapsed
  {
  }

  lemma Scaled(x: real, y: real, w: real)
    requires w > 0.0
    ensures x <= y <==> x * w <= y * w
  {
    assert y * w - x * w == (y - x) * w;
  }

  /** In terms of the bucket's refill. */
  lemma FitsSinceByRefill(maxRequests: nat, timeWindow: nat, calls: seq<Call>, decisions: seq<bool>, from: nat, n: nat)
    requires timeWindow > 0 && from <= n < |calls| && |decisions| == |calls|
    ensures FitsSince(maxRequests, timeWindow, calls, decisions, from, n) <==>
            (Spent(calls, decisions, from, n) + calls[n].tokens - maxRequests) as real
            <= Refill(PerWindow(maxRequests, timeWindow), calls[n].now - calls[from].now)
  {
    var over := Spent(calls, decisions, from, n) + calls[n].tokens - maxRequests;
    hide Refill, Spent, PerWindow, Earned;
    EarnedIsRefill(maxRequests, timeWindow, over, calls[n].now - calls[from].now);
  }

  lemma FitsSinceIsWithin(maxRequests: nat, timeWindow: nat, calls: seq<Call>, expiring: bool, from: nat, n: nat)
    requires timeWindow > 0 && from < n < |calls|
    ensures var c := PerWindow(maxRequests, timeWindow);
      FitsSince(maxRequests, timeWindow, calls, Decisions(c, calls, expiring), from, n) <==>
      Within(c, calls[..n], expiring, calls[n].now, calls[n].tokens as real, from)
  {
    var c := PerWindow(maxRequests, timeWindow);
    assert c.capacity == maxRequests as real;
    hide Refill, FitsSince, PerWindow, Granted, Spent;
    FitsSinceByRefill(maxRequests, timeWindow, calls, Decisions(c, calls, expiring), from, n);
    SpentIsGranted(c, calls, expiring, from, n);
    var spent, tokens := Spent(calls, Decisions(c, calls, expiring), from, n), calls[n].tokens;
    assert (spent + tokens - maxRequests) as real == spent as real + tokens as real - c.capacity;
  }

  lemma FitsIsWithin(maxRequests: nat, timeWindow: nat, calls: seq<Call>, expiring: bool, n: nat)
    requires timeWindow > 0 && n < |calls|
    ensures var c := PerWindow(maxRequests, timeWindow);
      Fits(maxRequests, timeWindow, calls, Decisions(c, calls, expiring), n) <==>
      WithinAll(c, calls[..n], expiring, calls[n].now, calls[n].tokens as real)
  {
    var c := PerWindow(maxRequests, timeWindow);
    var front, tokens, decisions := calls[..n], calls[n].tokens as real, Decisions(c, calls, expiring);
    assert c.capacity == maxRequests as real;
    hide FitsSince, Within, PerWindow;
    forall from | 0 <= from < n
      ensures Within(c, front, expiring, calls[n].now, tokens, from) <==>
              FitsSince(maxRequests, timeWindow, calls, decisions, from, n)
    {
      FitsSinceIsWithin(maxRequests, timeWindow, calls, expiring, from, n);
    }
    if WithinAll(c, front, expiring, calls[n].now, tokens) {
      assert forall from :: 0 <= from < n ==> Within(c, front, expiring, calls[n].now, tokens, from);
      assert Fits(maxRequests, timeWindow, calls, decisions, n);
    }
    if Fits(maxRequests, timeWindow, calls, decisions, n) {
      assert forall from :: 0 <= from < n ==> FitsSince(maxRequests, timeWindow, calls, decisions, from, n);
      assert WithinAll(c, front, expiring, calls[n].now, tokens);
    }
  }

  /** A call is admitted exactly when it fits every stretch that ends with it. */
  lemma AdmittedIff(maxRequests: nat, timeWindow: nat, calls: seq<Call>, expiring: bool, n: nat)
    requires timeWindow > 0 && InOrder(calls) && n < |calls|
    requires expiring ==> maxRequests == 0 || timeWindow <= 60
    ensures var c := PerWindow(maxRequests, timeWindow);
      Admitted(c, calls, expiring, n) <==> Fits(maxRequests, timeWindow, calls, Decisions(c, calls, expiring), n)
  {
    WindowInTime(maxRequests, timeWindow);
    FitsIsWithin(maxRequests, timeWindow, calls, expiring, n);
    hide WithinAll, Fits, Decisions;
    LevelExact(PerWindow(maxRequests, timeWindow), calls[..n], expiring, calls[n].now, calls[n].tokens as real);
  }

  /** Main result: over every run the script decides as generously as the bound allows and no more. Its decisions are the
      only ones that let each call through exactly when it fits all stretches that end with it. */
  lemma DecidesExactly(maxRequests: nat, timeWindow: nat, calls: seq<Call>, expiring: bool, decisions: seq<bool>)
    requires timeWindow > 0 && InOrder(calls)
    requires expiring ==> maxRequests == 0 || timeWindow <= 60
    ensures decisions == Decisions(PerWindow(maxRequests, timeWindow), calls, expiring) <==>
            JustFits(maxRequests, timeWindow, calls, decisions)
  {
    var made := Decisions(PerWindow(maxRequests, timeWindow), calls, expiring);
    hide PerWindow, Fits;
    forall n | 0 <= n < |calls|
      ensures made[n] <==> Fits(maxRequests, timeWindow, calls, made, n)
    {
      AdmittedIff(maxRequests, timeWindow, calls, expiring, n);
    }
    hide Decisions;
    if JustFits(maxRequests, timeWindow, calls, decisions) {
      JustFitsUnique(maxRequests, timeWindow, calls, decisions, made, |calls|);
      assert decisions[..|calls|] == decisions && made[..|calls|] == made;
    }
  }

  lemma {:induction false} JustFitsUnique(maxRequests: nat, timeWindow: nat, calls: seq<Call>, a: seq<bool>, b: seq<bool>, n: nat)
    requires n <= |calls|
    requires JustFits(maxRequests, timeWindow, calls, a) && JustFits(maxRequests, timeWindow, calls, b)
    ensures a[..n] == b[..n]
  {
    hide FitsSince;
    if n > 0 {
      var last := n - 1;
      JustFitsUnique(maxRequests, timeWindow, calls, a, b, last);
      assert forall i :: 0 <= i < last ==> a[i] == a[..last][i] == b[..last][i] == b[i];
      forall from | 0 <= from < last
        ensures FitsSince(maxRequests, timeWindow, calls, a, from, last) == FitsSince(maxRequests, timeWindow, calls, b, from, last)
      {
        SpentAlike(calls, a, b, from, last);
        FitsAlike(maxRequests, timeWindow, calls, a, b, from, last);
      }
      assert a[..n] == a[..last] + [a[last]] && b[..n] == b[..last] + [b[last]];
    }
  }

  lemma FitsAlike(maxRequests: nat, timeWindow: nat, calls: seq<Call>, a: seq<bool>, b: seq<bool>, from: nat, n: nat)
    requires from <= n < |calls| && |a| == |b| == |calls|
    requires Spent(calls, a, from, n) == Spent(calls, b, from, n)
    ensures FitsSince(maxRequests, timeWindow, calls, a, from, n) == FitsSince(maxRequests, timeWindow, calls, b, from, n)
  {
  }

  lemma {:induction false} SpentAlike(calls: seq<Call>, a: seq<bool>, b: seq<bool>, from: nat, to: nat)
    requires from <= to <= |calls| && |a| == |b| == |calls|
    requires forall i :: 0 <= i < to ==> a[i] == b[i]
    ensures Spent(calls, a, from, to) == Spent(calls, b, from, to)
  {
    if from < to {
      SpentAlike(calls, a, b, from, to - 1);
    }
  }

  // ---- Rejected attempts ----

  /** Refilling in one go or in two makes no difference. */
  lemma RefillTwice(c: Settings, b: Bucket, mid: Time, now: Time)
    requires Sound(c) && b.lastRefill <= mid <= now
    ensures Level(c, Some(Bucket(Level(c, Some(b), mid), mid)), now) == Level(c, Some(b), now)
  {
    hide Refill;
    RefillNonNegative(c, now - mid);
    RefillAdds(c, mid - b.lastRefill, now - mid);
  }

  lemma FullStaysFull(c: Settings, mid: Time, now: Time)
    requires Sound(c) && mid <= now
    ensures Level(c, Some(Bucket(c.capacity, mid)), now) == c.capacity
  {
    hide Refill;
    RefillNonNegative(c, now - mid);
  }

  /** The admitted calls alone. */
  function Kept(c: Settings, calls: seq<Call>, expiring: bool): seq<Call> {
    if calls == [] then []
    else
      var n := |calls| - 1;
      var kept := Kept(c, calls[..n], expiring);
      if Admitted(c, calls, expiring, n) then kept + [calls[n]] else kept
  }

  lemma {:induction false} KeptMembers(c: Settings, calls: seq<Call>, expiring: bool)
    ensures forall call :: call in Kept(c, calls, expiring) ==> call in calls
  {
    if calls != [] {
      KeptMembers(c, calls[..|calls| - 1], expiring);
    }
  }

  lemma {:induction false} KeptInOrder(c: Settings, calls: seq<Call>, expiring: bool)
    requires InOrder(calls)
    ensures InOrder(Kept(c, calls, expiring))
    ensures calls != [] ==> forall call :: call in Kept(c, calls, expiring) ==> call.now <= calls[|calls| - 1].now
  {
    if calls != [] {
      KeptInOrder(c, calls[..|calls| - 1], expiring);
      KeptMembers(c, calls, expiring);
    }
  }

  /** Whether a bucket is looked at now or was looked at before, it is as full now. */
  lemma SeenEarlier(c: Settings, calls: seq<Call>, expiring: bool, mid: Time, now: Time)
    requires Sound(c) && InOrder(calls) && mid <= now && (calls != [] ==> calls[|calls| - 1].now <= mid)
    requires expiring ==> RefillsBeforeExpiry(c)
    ensures Level(c, Seen(c, calls, expiring, mid), now) == Level(c, Seen(c, calls, expiring, now), now)
  {
    LevelInRange(c, calls, expiring);
    var stored := Stored(c, calls, expiring);
    hide Level, Stored;
    if expiring && stored.Some? {
      if Present(stored, mid) == stored {
        LevelUnexpired(c, stored.value, now);
      }
    }
  }

  /** A rejected call leaves the bucket as full, at every later time, as it would have been without it. */
  lemma RejectedUnnoticed(c: Settings, front: seq<Call>, call: Call, expiring: bool, now: Time)
    requires Sound(c) && InOrder(front + [call]) && call.now <= now
    requires expiring ==> RefillsBeforeExpiry(c)
    requires !Admits(c, Seen(c, front, expiring, call.now), call)
    ensures Level(c, Seen(c, front + [call], expiring, now), now) == Level(c, Seen(c, front, expiring, now), now)
  {
    var calls := front + [call];
    var seen := Seen(c, front, expiring, call.now);
    FrontInOrder(front, call);
    LevelInRange(c, front, expiring);
    LevelInRange(c, calls, expiring);
    Unrolled(c, front, call, expiring, 0);
    hide Level, Stored, Admits, Step;
    RejectedStep(c, seen, call, now);
    SeenEarlier(c, front, expiring, call.now, now);
    SeenEarlier(c, calls, expiring, call.now, now);
    assert Seen(c, calls, expiring, call.now) == Stored(c, calls, expiring);
  }

  lemma FrontInOrder(front: seq<Call>, call: Call)
    requires InOrder(front + [call])
    ensures InOrder(front) && forall earlier :: earlier in front ==> earlier.now <= call.now
  {
    var calls := front + [call];
    assert calls[|front|] == call;
    forall i | 0 <= i < |front|
      ensures front[i].now <= call.now
    {
      assert calls[i] == front[i];
    }
    forall i, j | 0 <= i < j < |front|
      ensures front[i].now <= front[j].now
    {
      assert calls[i] == front[i] && calls[j] == front[j];
    }
  }

  /** An admitted call leaves equally full buckets in the same state. */
  lemma AdmittedAlike(c: Settings, a: seq<Call>, b: seq<Call>, call: Call, expiring: bool, now: Time)
    requires Level(c, Seen(c, a, expiring, call.now), call.now) == Level(c, Seen(c, b, expiring, call.now), call.now)
    ensures Level(c, Seen(c, a + [call], expiring, now), now) == Level(c, Seen(c, b + [call], expiring, now), now)
  {
    Unrolled(c, a, call, expiring, 0);
    Unrolled(c, b, call, expiring, 0);
    hide Level, Stored, Step;
    SameLevelStep(c, Seen(c, a, expiring, call.now), Seen(c, b, expiring, call.now), call);
  }

  /** Rejected attempts change no later decision, with the key's expiry in force too when a full refill takes at most a
      minute: without them the bucket is as full at every later time. */
  lemma {:induction false} RejectionsInvisible(c: Settings, calls: seq<Call>, expiring: bool, now: Time)
    requires Sound(c) && InOrder(calls)
    requires forall call :: call in calls ==> call.now <= now
    requires expiring ==> RefillsBeforeExpiry(c)
    ensures Level(c, Seen(c, calls, expiring, now), now) == Level(c, Seen(c, Kept(c, calls, expiring), expiring, now), now)
  {
    hide Level, Seen, Admits;
    if calls != [] {
      var n := |calls| - 1;
      var front, call := calls[..n], calls[n];
      var kept := Kept(c, front, expiring);
      var admitted := Admits(c, Seen(c, front, expiring, call.now), call);
      assert calls == front + [call];
      assert Kept(c, calls, expiring) == if admitted then kept + [call] else kept;
      FrontInOrder(front, call);
      hide Kept, InOrder;
      if admitted {
        RejectionsInvisible(c, front, expiring, call.now);
        AdmittedAlike(c, front, kept, call, expiring, now);
      } else {
        RejectionsInvisible(c, front, expiring, now);
        RejectedUnnoticed(c, front, call, expiring, now);
      }
    }
  }

  /** Buckets equally full at a call are in the same state after it. */
  lemma SameLevelStep(c: Settings, a: Option<Bucket>, b: Option<Bucket>, call: Call)
    requires Level(c, a, call.now) == Level(c, b, call.now)
    ensures Step(c, a, call) == Step(c, b, call)
  {
    hide Level;
  }

  lemma RejectedStep(c: Settings, stored: Option<Bucket>, call: Call, now: Time)
    requires Sound(c) && !Admits(c, stored, call) && call.now <= now
    requires stored.Some? ==> stored.value.lastRefill <= call.now
    ensures Level(c, Step(c, stored, call), now) == Level(c, stored, now)
  {
    if stored.Some? {
      RefillTwice(c, stored.value, call.now, now);
    } else {
      FullStaysFull(c, call.now, now);
    }
  }

  /** The kept calls alone are all admitted. */
  lemma {:induction false} KeptAllAdmitted(c: Settings, calls: seq<Call>, expiring: bool, i: nat)
    requires Sound(c) && InOrder(calls) && i < |Kept(c, calls, expiring)|
    requires expiring ==> RefillsBeforeExpiry(c)
    ensures Admitted(c, Kept(c, calls, expiring), expiring, i)
  {
    hide Level, Seen;
    var n := |calls| - 1;
    var front := Kept(c, calls[..n], expiring);
    if i < |front| {
      KeptAllAdmitted(c, calls[..n], expiring, i);
      assert Kept(c, calls, expiring)[..i] == front[..i];
    } else {
      RejectionsInvisible(c, calls[..n], expiring, calls[n].now);
      assert Kept(c, calls, expiring)[..i] == front;
    }
  }

  // ---- When the key's expiry can be noticed ----

  lemma {:induction false} ExpiryKeepsLevel(c: Settings, calls: seq<Call>, now: Time)
    requires Sound(c) && InOrder(calls) && RefillsBeforeExpiry(c)
    requires calls != [] ==> calls[|calls| - 1].now <= now
    ensures Level(c, Seen(c, calls, true, now), now) == Level(c, Seen(c, calls, false, now), now)
    ensures Stored(c, calls, true) == Stored(c, calls, false)
  {
    hide Level, Present;
    LevelInRange(c, calls, true);
    if calls != [] {
      var n := |calls| - 1;
      ExpiryKeepsLevel(c, calls[..n], calls[n].now);
      LevelUnexpired(c, Stored(c, calls, true).value, now);
    } else {
      NothingToExpire(now);
    }
  }

  lemma NothingToExpire(now: Time)
    ensures Present(None, now) == None
  {
  }

  ghost predicate SameDecisions(c: Settings, calls: seq<Call>) {
    forall i :: 0 <= i < |calls| ==> (Admitted(c, calls, true, i) <==> Admitted(c, calls, false, i))
  }

  /** A bucket emptied at once and asked again exactly one minute later. */
  function TwoDrains(maxRequests: nat): seq<Call> {
    [Call(0.0, maxRequests), Call(EXPIRY, maxRequests)]
  }

  lemma WindowInTime(maxRequests: nat, timeWindow: nat)
    requires timeWindow > 0
    ensures var c := PerWindow(maxRequests, timeWindow);
      Sound(c) && (RefillsBeforeExpiry(c) <==> maxRequests == 0 || timeWindow <= 60)
  {
    RateInTime(PerWindow(maxRequests, timeWindow), timeWindow as real);
  }

  lemma RateInTime(c: Settings, w: real)
    requires c.capacity >= 0.0 && w > 0.0 && c.refillRate == c.capacity / w
    ensures c.refillRate >= 0.0
    ensures RefillsBeforeExpiry(c) <==> c.capacity == 0.0 || w <= 60.0
  {
    var rate := c.refillRate;
    Quotient(c.capacity, w, rate);
    SixtySeconds(c);
    WindowTimesRate(w, rate);
    hide Refill;
    if c.capacity == 0.0 {
      assert rate == 0.0;
    } else if w <= 60.0 {
      assert c.capacity <= 60.0 * rate;
    } else {
      assert c.capacity > 60.0 * rate;
    }
  }

  lemma Quotient(m: real, w: real, q: real)
    requires m >= 0.0 && w > 0.0 && q == m / w
    ensures w * q == m && q >= 0.0
    ensures q == 0.0 <==> m == 0.0
  {
    assert q * w == m;
    Signs(q, w);
  }

  lemma Signs(q: real, w: real)
    requires w > 0.0
    ensures q * w >= 0.0 <==> q >= 0.0
    ensures q * w == 0.0 <==> q == 0.0
  {
  }

  lemma SixtySeconds(c: Settings)
    ensures Refill(c, EXPIRY) == 60.0 * c.refillRate
  {
  }

  lemma WindowTimesRate(w: real, rate: real)
    requires w > 0.0 && rate >= 0.0
    ensures rate > 0.0 && w > 60.0 ==> w * rate > 60.0 * rate
    ensures rate == 0.0 ==> w * rate == 60.0 * rate
    ensures w <= 60.0 ==> w * rate <= 60.0 * rate
  {
    Difference(w, rate);
    if rate > 0.0 {
      Signs(w - 60.0, rate);
    }
  }

  lemma Difference(w: real, rate: real)
    ensures w * rate - 60.0 * rate == (w - 60.0) * rate
  {
  }

  /** With a longer window the second drain is granted by an expiring key, against both the unexpired bucket's
      decision and the bound. */
  lemma LongWindowNoticesExpiry(maxRequests: nat, timeWindow: nat)
    requires maxRequests > 0 && timeWindow > 60
    ensures var c, calls := PerWindow(maxRequests, timeWindow), TwoDrains(maxRequests);
      && Admitted(c, calls, true, 1) && !Admitted(c, calls, false, 1)
      && Granted(c, calls, true, 0) as real > c.capacity + Refill(c, EXPIRY)
  {
    WindowInTime(maxRequests, timeWindow);
    SlowRefillNoticesExpiry(PerWindow(maxRequests, timeWindow), maxRequests);
  }

  lemma SlowRefillNoticesExpiry(c: Settings, maxRequests: nat)
    requires c.capacity == maxRequests as real > 0.0 && Refill(c, EXPIRY) < c.capacity
    ensures var calls := TwoDrains(maxRequests);
      && Admitted(c, calls, true, 1) && !Admitted(c, calls, false, 1)
      && Granted(c, calls, true, 0) as real > c.capacity + Refill(c, EXPIRY)
  {
    var calls, first := TwoDrains(maxRequests), [Call(0.0, maxRequests)];
    assert calls == first + [Call(EXPIRY, maxRequests)] && calls[..1] == first;
    assert first == [] + [Call(0.0, maxRequests)];
    Unrolled(c, [], Call(0.0, maxRequests), true, 0);
    Unrolled(c, [], Call(0.0, maxRequests), false, 0);
    hide Refill;
    assert Stored(c, first, false) == Stored(c, first, true) == Some(Bucket(0.0, 0.0));
    Unrolled(c, first, Call(EXPIRY, maxRequests), true, 0);
  }

  /** The key's expiry is unobservable exactly when the time window is at most a minute (or nothing is ever allowed). */
  lemma ExpiryUnobservableIff(maxRequests: nat, timeWindow: nat)
    requires timeWindow > 0
    ensures (forall calls :: InOrder(calls) ==> SameDecisions(PerWindow(maxRequests, timeWindow), calls)) <==>
            maxRequests == 0 || timeWindow <= 60
  {
    var c := PerWindow(maxRequests, timeWindow);
    WindowInTime(maxRequests, timeWindow);
    if maxRequests == 0 || timeWindow <= 60 {
      forall calls: seq<Call> | InOrder(calls)
        ensures SameDecisions(c, calls)
      {
        DecisionsAgree(c, calls);
      }
    } else {
      LongWindowNoticesExpiry(maxRequests, timeWindow);
      hide PerWindow;
      assert InOrder(TwoDrains(maxRequests)) && !SameDecisions(c, TwoDrains(maxRequests));
    }
  }

  // ---- When rejected attempts can be noticed ----

  /** Every call is decided as if the rejected calls before it had not been made, the key's expiry being in force. */
  ghost predicate RejectionsUnnoticed(c: Settings, calls: seq<Call>) {
    forall i :: 0 <= i < |calls| ==>
      (Admitted(c, calls, true, i) <==>
        Admits(c, Seen(c, Kept(c, calls[..i], true), true, calls[i].now), calls[i]))
  }

  lemma DecidedAlike(c: Settings, calls: seq<Call>)
    requires Sound(c) && InOrder(calls) && RefillsBeforeExpiry(c)
    ensures RejectionsUnnoticed(c, calls)
  {
    forall i | 0 <= i < |calls|
      ensures Admitted(c, calls, true, i) <==>
              Admits(c, Seen(c, Kept(c, calls[..i], true), true, calls[i].now), calls[i])
    {
      RejectionsInvisible(c, calls[..i], true, calls[i].now);
      hide Level, Seen, Kept;
    }
  }

  /** A bucket emptied at once, asked in vain after half a minute, and asked again a minute after it was emptied. */
  function AskedInVain(maxRequests: nat): seq<Call> {
    [Call(0.0, maxRequests), Call(30.0, maxRequests), Call(EXPIRY, maxRequests)]
  }

  lemma HalfRefill(c: Settings)
    requires Sound(c) && 0.0 < c.capacity && Refill(c, EXPIRY) < c.capacity
    ensures Refill(c, 30.0) + Refill(c, 30.0) == Refill(c, EXPIRY) && 0.0 <= Refill(c, 30.0) < c.capacity
  {
    RefillAdds(c, 30.0, 30.0);
    RefillNonNegative(c, 30.0);
    hide Refill;
  }

  /** With a slow refill the rejected call postpones the key's expiry, and with it the next admission. */
  lemma RejectionPostponesExpiry(c: Settings, maxRequests: nat)
    requires Sound(c) && c.capacity == maxRequests as real > 0.0 && Refill(c, EXPIRY) < c.capacity
    ensures var calls := AskedInVain(maxRequests);
      && InOrder(calls)
      && !Admitted(c, calls, true, 1) && !Admitted(c, calls, true, 2)
      && Kept(c, calls[..2], true) == [calls[0]]
      && Admits(c, Seen(c, [calls[0]], true, EXPIRY), calls[2])
  {
    var calls := AskedInVain(maxRequests);
    var first, second := [calls[0]], [calls[0], calls[1]];
    HalfRefill(c);
    assert calls[..0] == [] && calls[..1] == first && calls[..2] == second && second[..1] == first && first[..0] == [];
    assert first == [] + [calls[0]] && second == first + [calls[1]];
    Unrolled(c, [], calls[0], true, 0);
    Unrolled(c, first, calls[1], true, 0);
    hide Refill, Stored;
    assert Stored(c, first, true) == Some(Bucket(0.0, 0.0));
    assert Stored(c, second, true) == Some(Bucket(Refill(c, 30.0), 30.0));
    KeptFirst(c, calls[0], calls[1]);
  }

  lemma KeptFirst(c: Settings, first: Call, second: Call)
    requires Admitted(c, [first], true, 0) && !Admitted(c, [first, second], true, 1)
    ensures Kept(c, [first, second], true) == [first]
  {
    assert [first, second][..1] == [first] && [first][..0] == [];
    assert Kept(c, [first][..0], true) == [];
  }

  /** Rejected attempts change no later decision, for all ordered calls, exactly when the time window is at most a
      minute (or nothing is ever allowed). */
  lemma RejectionsInvisibleIff(maxRequests: nat, timeWindow: nat)
    requires timeWindow > 0
    ensures (forall calls :: InOrder(calls) ==> RejectionsUnnoticed(PerWindow(maxRequests, timeWindow), calls)) <==>
            maxRequests == 0 || timeWindow <= 60
  {
    var c := PerWindow(maxRequests, timeWindow);
    WindowInTime(maxRequests, timeWindow);
    if maxRequests == 0 || timeWindow <= 60 {
      forall calls: seq<Call> | InOrder(calls)
        ensures RejectionsUnnoticed(c, calls)
      {
        DecidedAlike(c, calls);
      }
    } else {
      RejectionPostponesExpiry(c, maxRequests);
      hide PerWindow;
      assert InOrder(AskedInVain(maxRequests)) && !RejectionsUnnoticed(c, AskedInVain(maxRequests));
    }
  }

  lemma DecisionsAgree(c: Settings, calls: seq<Call>)
    requires Sound(c) && InOrder(calls) && RefillsBeforeExpiry(c)
    ensures SameDecisions(c, calls)
  {
    forall i | 0 <= i < |calls|
      ensures Admitted(c, calls, true, i) <==> Admitted(c, calls, false, i)
    {
      ExpiryKeepsLevel(c, calls[..i], calls[i].now);
      hide Level, Seen;
    }
  }
}
