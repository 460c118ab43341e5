/** The distributed sliding-window limiter: a Lua script over one Redis sorted set, run atomically by any number
    of clients. Times are microseconds. */
module SlidingWindowLog {
  import opened Sequences

  type Time = int

  const SECOND: nat := 1_000_000

  /** One script call: the stamp the client passes, and Redis's own clock when the script executes. */
  datatype Call = Call(now: nat, server: nat)

  /** The sorted set; stamp and member are the same value, so the set of members is the set of stamps. */
  datatype Log = Log(stamps: set<Time>, expiresAt: Time)

  function After(stamps: set<Time>, now: Time, window: nat): set<Time> {
    set t | t in stamps && t + window > now
  }

  /** The set as Redis sees it: a key past its expiry is gone. */
  function Present(log: Log, call: Call): set<Time> {
    if call.server >= log.expiresAt then {} else log.stamps
  }

  function Admits(log: Log, call: Call, window: nat, maxRequests: nat): bool {
    |After(Present(log, call), call.now, window)| < maxRequests
  }

  function Step(log: Log, call: Call, window: nat, maxRequests: nat): Log {
    var recent := After(Present(log, call), call.now, window);
    if Admits(log, call, window, maxRequests)
    then Log(recent + {call.now}, call.server + window + SECOND)
    else Log(recent, log.expiresAt)
  }

  class SlidingWindowLog {
    const window: nat
    const maxRequests: nat
    var stamps: set<Time>
    var expiresAt: Time

    ghost function View(): Log
      reads this
    {
      Log(stamps, expiresAt)
    }

    constructor (window: nat, maxRequests: nat)
      ensures View() == Log({}, 0) && this.window == window && this.maxRequests == maxRequests
    {
      this.window, this.maxRequests := window, maxRequests;
      stamps, expiresAt := {}, 0;
    }

    /** The script. */
    method Eval(call: Call) returns (result: nat)
      modifies this
      ensures View() == Step(old(View()), call, window, maxRequests)
      ensures result == if Admits(old(View()), call, window, maxRequests) then 1 else 0
    {
      if call.server >= expiresAt {
        stamps := {};
      }
      stamps := set t | t in stamps && !(t + window <= call.now);
      var currentRequests := |stamps|;
      assert stamps == After(Present(old(View()), call), call.now, window);
      if currentRequests < maxRequests {
        stamps := stamps + {call.now};
        expiresAt := call.server + window + SECOND;
        return 1;
      } else {
        return 0;
      }
    }
  }

  // ---- Runs ----

  function Final(calls: seq<Call>, window: nat, maxRequests: nat): Log {
    if calls == [] then Log({}, 0)
    else Step(Final(calls[..|calls| - 1], window, maxRequests), calls[|calls| - 1], window, maxRequests)
  }

  /** The stamps admitted, in order. */
  function Admitted(calls: seq<Call>, window: nat, maxRequests: nat): seq<Time> {
    if calls == [] then []
    else
      var n := |calls| - 1;
      var earlier := Admitted(calls[..n], window, maxRequests);
      if Admits(Final(calls[..n], window, maxRequests), calls[n], window, maxRequests) then earlier + [calls[n].now] else earlier
  }

  /** Calls run in the order of their stamps, and each runs at most a second after its stamp was taken. */
  ghost predicate InOrder(calls: seq<Call>) {
    && (forall i, j :: 0 <= i < j < |calls| ==> calls[i].now <= calls[j].now && calls[i].server <= calls[j].server)
    && (forall i :: 0 <= i < |calls| ==> calls[i].now <= calls[i].server <= calls[i].now + SECOND)
  }

  ghost predicate DistinctStamps(calls: seq<Call>) {
    forall i, j :: 0 <= i < j < |calls| ==> calls[i].now != calls[j].now
  }

  ghost predicate Spaced(admitted: seq<Time>, window: nat, maxRequests: nat) {
    forall i :: maxRequests <= i < |admitted| ==> admitted[i - maxRequests] + window <= admitted[i]
  }

  /** The different stamps admitted in the window that ends at `now`. */
  function Recent(admitted: seq<Time>, now: Time, window: nat): set<Time> {
    set t | t in admitted && t + window > now
  }

  /** At `now` the set holds only admissions, and all of them that are still in the window; the key outlives them. */
  ghost predicate Consistent(log: Log, admitted: seq<Time>, window: nat, now: Time) {
    && (forall t :: t in log.stamps ==> t in admitted)
    && (forall i :: 0 <= i < |admitted| ==>
          && admitted[i] <= now
          && (admitted[i] + window > now ==> admitted[i] in log.stamps)
          && admitted[i] + window + SECOND <= log.expiresAt)
    && Rising(admitted)
  }

  ghost predicate Inv(calls: seq<Call>, window: nat, maxRequests: nat) {
    var log, admitted := Final(calls, window, maxRequests), Admitted(calls, window, maxRequests);
    && (calls == [] ==> admitted == [])
    && Consistent(log, admitted, window, if calls == [] then 0 else calls[|calls| - 1].now)
  }

  /** One more call whose window was counted exactly. */
  lemma ConsistentStep(log: Log, admitted: seq<Time>, window: nat, before: Time, call: Call, recent: set<Time>)
    requires Consistent(log, admitted, window, before) && before <= call.now <= call.server
    requires recent == Recent(admitted, call.now, window)
    ensures Consistent(Log(recent, log.expiresAt), admitted, window, call.now)
    ensures Consistent(Log(recent + {call.now}, call.server + window + SECOND), admitted + [call.now], window, call.now)
  {
    assert forall i :: 0 <= i < |admitted| ==> admitted[i] in admitted;
  }

  /** An expired set held nothing the script would not have removed itself, so expiry changes no decision: the
      stamps the script counts are exactly the admitted ones still inside the window. */
  lemma CountsExactly(calls: seq<Call>, call: Call, window: nat, maxRequests: nat)
    requires Inv(calls, window, maxRequests) && InOrder(calls + [call])
    ensures After(Present(Final(calls, window, maxRequests), call), call.now, window) ==
            Recent(Admitted(calls, window, maxRequests), call.now, window)
  {
    var log, admitted := Final(calls, window, maxRequests), Admitted(calls, window, maxRequests);
    var counted := After(Present(log, call), call.now, window);
    var all := calls + [call];
    assert all[|calls|] == call;
    if calls != [] {
      assert all[|calls| - 1] == calls[|calls| - 1];
    }
    forall t | t in admitted && t + window > call.now
      ensures t in counted
    {
      var i :| 0 <= i < |admitted| && admitted[i] == t;
      assert calls != [];
    }
  }

  lemma InvStep(calls: seq<Call>, call: Call, window: nat, maxRequests: nat)
    requires Inv(calls, window, maxRequests) && InOrder(calls + [call])
    ensures Inv(calls + [call], window, maxRequests)
  {
    var all := calls + [call];
    assert all[..|calls|] == calls && all[|all| - 1] == call;
    if calls != [] {
      assert all[|calls| - 1] == calls[|calls| - 1];
    }
    CountsExactly(calls, call, window, maxRequests);
    var log, admitted := Final(calls, window, maxRequests), Admitted(calls, window, maxRequests);
    var recent := After(Present(log, call), call.now, window);
    var before := if calls == [] then 0 else calls[|calls| - 1].now;
    assert before <= call.now <= call.server;
    hide InOrder, Present, After, Consistent;
    ConsistentStep(log, admitted, window, before, call, recent);
  }

  lemma {:induction false} InvHolds(calls: seq<Call>, window: nat, maxRequests: nat)
    requires InOrder(calls)
    ensures Inv(calls, window, maxRequests)
  {
    if calls != [] {
      var n := |calls| - 1;
      InvHolds(calls[..n], window, maxRequests);
      assert calls == calls[..n] + [calls[n]];
      InvStep(calls[..n], calls[n], window, maxRequests);
    }
  }

  /** Main result, part one: under requests that arrive in stamp order within a second, the script admits a call
      exactly when fewer than the maximum were admitted in the window that ends at its stamp. Neither the
      pruning nor the key's expiry ever forgets an admission that still counts. */
  lemma AdmitsExactly(calls: seq<Call>, call: Call, window: nat, maxRequests: nat)
    requires InOrder(calls + [call])
    ensures Admits(Final(calls, window, maxRequests), call, window, maxRequests) <==>
            |Recent(Admitted(calls, window, maxRequests), call.now, window)| < maxRequests
  {
    PrefixInOrder(calls, call);
    InvHolds(calls, window, maxRequests);
    CountsExactly(calls, call, window, maxRequests);
  }

  lemma {:induction false} AdmittedAreCalls(calls: seq<Call>, window: nat, maxRequests: nat)
    ensures forall t :: t in Admitted(calls, window, maxRequests) ==> exists i :: 0 <= i < |calls| && calls[i].now == t
  {
    if calls != [] {
      var n := |calls| - 1;
      AdmittedAreCalls(calls[..n], window, maxRequests);
      forall t | t in Admitted(calls, window, maxRequests)
        ensures exists i :: 0 <= i < |calls| && calls[i].now == t
      {
        if t in Admitted(calls[..n], window, maxRequests) {
          var i :| 0 <= i < n && calls[..n][i].now == t;
          assert calls[i].now == t;
        } else {
          assert calls[n].now == t;
        }
      }
    }
  }

  /** Part two: with stamps that never repeat, or with a maximum of one, an admission comes at least one window
      after the one `maxRequests` places before it. */
  lemma {:induction false} AdmissionsSpaced(calls: seq<Call>, window: nat, maxRequests: nat)
    requires InOrder(calls)
    requires DistinctStamps(calls) || maxRequests <= 1
    ensures Spaced(Admitted(calls, window, maxRequests), window, maxRequests)
    ensures DistinctStamps(calls) ==> Increasing(Admitted(calls, window, maxRequests))
  {
    hide Inv, InOrder, DistinctStamps, Admits, Final, Spaced, Increasing;
    if calls == [] {
      NoneSpaced(window, maxRequests);
    } else {
      var n := |calls| - 1;
      var front, call := calls[..n], calls[n];
      assert calls == front + [call];
      PrefixInOrder(front, call);
      AdmissionsSpaced(front, window, maxRequests);
      if Admits(Final(front, window, maxRequests), call, window, maxRequests) {
        InvHolds(front, window, maxRequests);
        SomeAllowed(calls, window, maxRequests);
        NewlySpaced(front, call, window, maxRequests);
        AdmittedAreCalls(front, window, maxRequests);
        SpacedPush(Admitted(front, window, maxRequests), call.now, window, maxRequests);
        if DistinctStamps(calls) {
          StampsBelow(front, call, window, maxRequests);
          IncreasingPush(Admitted(front, window, maxRequests), call.now);
        }
      }
    }
  }

  lemma PrefixInOrder(front: seq<Call>, call: Call)
    requires InOrder(front + [call])
    ensures InOrder(front)
    ensures DistinctStamps(front + [call]) ==> DistinctStamps(front)
  {
    assert forall i :: 0 <= i < |front| ==> (front + [call])[i] == front[i];
  }

  lemma IncreasingPush(admitted: seq<Time>, t: Time)
    requires Increasing(admitted) && forall x :: x in admitted ==> x < t
    ensures Increasing(admitted + [t])
  {
    assert forall i :: 0 <= i < |admitted| ==> admitted[i] in admitted;
  }

  lemma StampsBelow(front: seq<Call>, call: Call, window: nat, maxRequests: nat)
    requires InOrder(front + [call])
    requires forall t :: t in Admitted(front, window, maxRequests) ==> exists i :: 0 <= i < |front| && front[i].now == t
    requires DistinctStamps(front + [call])
    ensures forall t :: t in Admitted(front, window, maxRequests) ==> t < call.now
  {
    var all := front + [call];
    forall t | t in Admitted(front, window, maxRequests)
      ensures t < call.now
    {
      var i :| 0 <= i < |front| && front[i].now == t;
      assert all[i].now == t && all[|front|] == call;
    }
  }

  lemma NewlySpaced(front: seq<Call>, call: Call, window: nat, maxRequests: nat)
    requires InOrder(front + [call])
    requires Inv(front, window, maxRequests)
    requires Admits(Final(front, window, maxRequests), call, window, maxRequests)
    requires maxRequests <= 1 || Increasing(Admitted(front, window, maxRequests))
    ensures var admitted := Admitted(front, window, maxRequests);
      |admitted| >= maxRequests > 0 ==> admitted[|admitted| - maxRequests] + window <= call.now
  {
    hide Final, Admits, InOrder, Admitted, Rising, Increasing, Recent;
    var admitted := Admitted(front, window, maxRequests);
    AdmitsExactly(front, call, window, maxRequests);
    assert Rising(admitted);
    hide Inv;
    FarEnough(admitted, call.now, window, maxRequests);
  }

  ghost predicate Rising(admitted: seq<Time>) {
    forall i, j :: 0 <= i < j < |admitted| ==> admitted[i] <= admitted[j]
  }

  lemma FarEnough(admitted: seq<Time>, now: Time, window: nat, k: nat)
    requires Rising(admitted) && (k <= 1 || Increasing(admitted))
    requires |Recent(admitted, now, window)| < k
    ensures |admitted| >= k > 0 ==> admitted[|admitted| - k] + window <= now
  {
    if |admitted| >= k > 0 && admitted[|admitted| - k] + window > now {
      TailCounted(admitted, now, window, k);
    }
  }

  /** If the k-th last of some stamps in order is inside the window, at least k different ones are. */
  lemma TailCounted(admitted: seq<Time>, now: Time, window: nat, k: nat)
    requires 0 < k <= |admitted| && admitted[|admitted| - k] + window > now
    requires Rising(admitted) && (k == 1 || Increasing(admitted))
    ensures |Recent(admitted, now, window)| >= k
  {
    var counted := Recent(admitted, now, window);
    var tail := admitted[|admitted| - k..];
    forall i | 0 <= i < |tail|
      ensures tail[i] in counted
    {
      assert tail[i] == admitted[|admitted| - k + i];
    }
    Cardinality(tail);
    SubsetSize((set t | t in tail), counted);
  }

  lemma NoneSpaced(window: nat, maxRequests: nat)
    ensures Spaced([], window, maxRequests) && Increasing([])
  {
  }

  lemma SpacedPush(admitted: seq<Time>, t: Time, window: nat, maxRequests: nat)
    requires Spaced(admitted, window, maxRequests) && maxRequests > 0
    requires |admitted| >= maxRequests ==> admitted[|admitted| - maxRequests] + window <= t
    ensures Spaced(admitted + [t], window, maxRequests)
  {
  }

  /** Hence no window (x, x + window] holds more admissions than the maximum, whatever clients call. */
  lemma WindowBound(calls: seq<Call>, window: nat, maxRequests: nat, x: int, a: nat, b: nat)
    requires InOrder(calls)
    requires DistinctStamps(calls) || maxRequests <= 1
    requires var admitted := Admitted(calls, window, maxRequests);
      a <= b < |admitted| && x < admitted[a] && admitted[b] <= x + window
    ensures b - a + 1 <= maxRequests
  {
    AdmissionsSpaced(calls, window, maxRequests);
    InvHolds(calls, window, maxRequests);
    SomeAllowed(calls, window, maxRequests);
    hide Final, Admits;
    var admitted := Admitted(calls, window, maxRequests);
    if maxRequests <= b {
      assert admitted[b - maxRequests] + window <= admitted[b];
    }
  }

  lemma {:induction false} SomeAllowed(calls: seq<Call>, window: nat, maxRequests: nat)
    ensures Admitted(calls, window, maxRequests) != [] ==> maxRequests > 0
  {
    if calls != [] {
      SomeAllowed(calls[..|calls| - 1], window, maxRequests);
    }
  }

  // ---- Why stamps must not repeat when the maximum exceeds one ----

  function Repeated(t: nat, n: nat): seq<Call> {
    seq(n, _ => Call(t, t))
  }

  /** Any number of calls with one and the same stamp are all admitted once the maximum is at least two: they
      share one member of the set, so the set never fills. */
  lemma {:induction false} SameStampBreaksBound(t: nat, n: nat, window: nat, maxRequests: nat)
    requires maxRequests >= 2 && window > 0
    ensures InOrder(Repeated(t, n))
    ensures |Admitted(Repeated(t, n), window, maxRequests)| == n
    ensures Final(Repeated(t, n), window, maxRequests) == if n == 0 then Log({}, 0) else Log({t}, t + window + SECOND)
  {
    if n > 0 {
      var calls := Repeated(t, n);
      assert calls[..n - 1] == Repeated(t, n - 1);
      SameStampBreaksBound(t, n - 1, window, maxRequests);
      var log := Final(calls[..n - 1], window, maxRequests);
      var recent := After(Present(log, calls[n - 1]), t, window);
      assert recent <= {t};
      assert recent + {t} == {t};
      assert |recent| <= 1 by { SubsetSize(recent, {t}); }
    }
  }

  /** No window (x, x + window] holds more admissions than the maximum. */
  ghost predicate WithinBound(admitted: seq<Time>, window: nat, maxRequests: nat) {
    forall x: int, a: nat, b: nat :: Spans(admitted, window, x, a, b) ==> b - a + 1 <= maxRequests
  }

  ghost predicate Spans(admitted: seq<Time>, window: nat, x: int, a: nat, b: nat) {
    a <= b < |admitted| && x < admitted[a] && admitted[b] <= x + window
  }

  lemma {:induction false} AllSame(t: nat, n: nat, window: nat, maxRequests: nat)
    requires maxRequests >= 2 && window > 0
    ensures Admitted(Repeated(t, n), window, maxRequests) == seq(n, _ => t)
  {
    if n > 0 {
      var calls := Repeated(t, n);
      assert calls[..n - 1] == Repeated(t, n - 1);
      AllSame(t, n - 1, window, maxRequests);
      SameStampBreaksBound(t, n, window, maxRequests);
      SameStampBreaksBound(t, n - 1, window, maxRequests);
      assert calls[n - 1].now == t;
    }
  }

  /** Main result: all calls in order, repeated stamps included, keep the window bound exactly when the maximum is at most
      one (or the window is empty). */
  lemma BoundKeptIff(window: nat, maxRequests: nat)
    ensures (forall calls :: InOrder(calls) ==> WithinBound(Admitted(calls, window, maxRequests), window, maxRequests))
            <==> window == 0 || maxRequests <= 1
  {
    if window == 0 || maxRequests <= 1 {
      forall calls | InOrder(calls)
        ensures WithinBound(Admitted(calls, window, maxRequests), window, maxRequests)
      {
        KeepsBound(calls, window, maxRequests);
      }
    } else {
      var calls := Repeated(0, maxRequests + 1);
      SameStampBreaksBound(0, maxRequests + 1, window, maxRequests);
      AllSame(0, maxRequests + 1, window, maxRequests);
      hide Admitted, InOrder;
      assert Spans(Admitted(calls, window, maxRequests), window, -1, 0, maxRequests);
    }
  }

  lemma KeepsBound(calls: seq<Call>, window: nat, maxRequests: nat)
    requires InOrder(calls) && (window == 0 || maxRequests <= 1)
    ensures WithinBound(Admitted(calls, window, maxRequests), window, maxRequests)
  {
    var admitted := Admitted(calls, window, maxRequests);
    InvHolds(calls, window, maxRequests);
    if maxRequests <= 1 {
      forall x: int, a: nat, b: nat | Spans(admitted, window, x, a, b)
        ensures b - a + 1 <= maxRequests
      {
        WindowBound(calls, window, maxRequests, x, a, b);
      }
    } else {
      forall x: int, a: nat, b: nat
        ensures !Spans(admitted, 0, x, a, b)
      {
        assert a < b < |admitted| ==> admitted[a] <= admitted[b];
      }
    }
  }
}
