/** The fixed-window signup limiter: what it admits over whole runs, and why its lazy eviction is invisible. */
module SignupLimiter {
  import opened Wrappers

  /** The sweep runs only when the map holds more keys than this. */
  const SWEEP_ABOVE := 256

  /** Times count nanoseconds since the zero time.Time, which is 0. */
  datatype Window = Window(start: int, count: nat)
  type Counters = map<string, Window>
  datatype Policy = Policy(limit: int, window: int)
  datatype Call = Call(key: string, now: int)

  predicate Stale(p: Policy, w: Window, now: int) {
    w.start == 0 || now - w.start >= p.window
  }

  /** What the map holds for the key: Go's zero value when it holds nothing. */
  function Slot(m: Counters, key: string): Window {
    if key in m then m[key] else Window(0, 0)
  }

  function Sweep(p: Policy, m: Counters, now: int): Counters {
    map k | k in m && !Stale(p, m[k], now) :: m[k]
  }

  function Counted(p: Policy, w: Window, now: int): Window {
    if Stale(p, w, now) then Window(now, 1) else Window(w.start, w.count + 1)
  }

  /** One call: the new map and the answer. With eviction off it is the same limiter on an ever-growing map. */
  function Step(p: Policy, evicting: bool, m: Counters, c: Call): (Counters, bool) {
    var swept := if evicting && |m| > SWEEP_ABOVE then Sweep(p, m, c.now) else m;
    var w := Counted(p, Slot(swept, c.key), c.now);
    (swept[c.key := w], w.count <= p.limit)
  }

  class Limiter {
    const policy: Policy
    var counters: Counters

    constructor (limit: int, window: int)
      ensures policy == Policy(limit, window) && counters == map[]
    {
      policy := Policy(limit, window);
      counters := map[];
    }

    /** allow, with the sweep's deletions in whatever order the map is ranged over. */
    method Allow(key: string, now: int) returns (ok: bool)
      modifies this
      ensures (counters, ok) == Step(policy, true, old(counters), Call(key, now))
    {
      if |counters| > SWEEP_ABOVE {
        var all := counters;
        var rest := counters.Keys;
        while rest != {}
          invariant rest <= all.Keys
          invariant counters == map k | k in all && (k in rest || !Stale(policy, all[k], now)) :: all[k]
          decreases |rest|
        {
          var k :| k in rest;
          rest := rest - {k};
          if Stale(policy, counters[k], now) {
            counters := counters - {k};
          }
        }
        assert counters == Sweep(policy, all, now);
      }
      var state := Slot(counters, key);
      if Stale(policy, state, now) {
        state := Window(now, 0);
      }
      state := Window(state.start, state.count + 1);
      counters := counters[key := state];
      return state.count <= policy.limit;
    }
  }

  // ----- runs

  /** The clock never runs backwards. */
  predicate InOrder(calls: seq<Call>) {
    forall i, j :: 0 <= i < j < |calls| ==> calls[i].now <= calls[j].now
  }

  predicate NonZero(calls: seq<Call>) {
    forall i :: 0 <= i < |calls| ==> calls[i].now != 0
  }

  /** The map after the first n calls on a new limiter. */
  function After(p: Policy, evicting: bool, calls: seq<Call>, n: nat): Counters
    requires n <= |calls|
  {
    if n == 0 then map[] else Step(p, evicting, After(p, evicting, calls, n - 1), calls[n - 1]).0
  }

  predicate Answer(p: Policy, evicting: bool, calls: seq<Call>, i: nat)
    requires i < |calls|
  {
    Step(p, evicting, After(p, evicting, calls, i), calls[i]).1
  }

  /** How many of the first n calls were for the key, at a time in [lo, hi), and admitted. */
  function Admitted(p: Policy, evicting: bool, calls: seq<Call>, n: nat, key: string, lo: int, hi: int): (count: nat)
    requires n <= |calls|
  {
    if n == 0 then 0
    else
      var c := calls[n - 1];
      Admitted(p, evicting, calls, n - 1, key, lo, hi) +
      if c.key == key && lo <= c.now < hi && Answer(p, evicting, calls, n - 1) then 1 else 0
  }

  // ----- eviction is invisible

  /** The part of the map that still matters at a time. */
  function Live(p: Policy, m: Counters, key: string, now: int): Option<Window> {
    if key in m && !Stale(p, m[key], now) then Some(m[key]) else None
  }

  ghost predicate Agree(p: Policy, a: Counters, b: Counters, now: int) {
    forall key :: Live(p, a, key, now) == Live(p, b, key, now)
  }

  lemma StepAgrees(p: Policy, a: Counters, b: Counters, c: Call)
    requires Agree(p, a, b, c.now)
    ensures Step(p, true, a, c).1 == Step(p, false, b, c).1
    ensures Agree(p, Step(p, true, a, c).0, Step(p, false, b, c).0, c.now)
  {
    var swept := if |a| > SWEEP_ABOVE then Sweep(p, a, c.now) else a;
    assert Agree(p, swept, a, c.now);
    assert Live(p, swept, c.key, c.now) == Live(p, b, c.key, c.now);
    var a', b' := Step(p, true, a, c).0, Step(p, false, b, c).0;
    forall key ensures Live(p, a', key, c.now) == Live(p, b', key, c.now) {
      assert Live(p, swept, key, c.now) == Live(p, b, key, c.now);
    }
  }

  lemma LaterAgrees(p: Policy, a: Counters, b: Counters, now: int, later: int)
    requires Agree(p, a, b, now) && now <= later
    ensures Agree(p, a, b, later)
  {
    forall key ensures Live(p, a, key, later) == Live(p, b, key, later) {
      assert Live(p, a, key, now) == Live(p, b, key, now);
    }
  }

  lemma {:induction false} RunsAgree(p: Policy, calls: seq<Call>, n: nat, now: int)
    requires InOrder(calls) && n <= |calls| && (n > 0 ==> calls[n - 1].now <= now)
    ensures Agree(p, After(p, true, calls, n), After(p, false, calls, n), now)
  {
    if n > 0 {
      var c := calls[n - 1];
      RunsAgree(p, calls, n - 1, c.now);
      StepAgrees(p, After(p, true, calls, n - 1), After(p, false, calls, n - 1), c);
      LaterAgrees(p, After(p, true, calls, n), After(p, false, calls, n), c.now, now);
    }
  }

  /** On every run with a clock that does not go back, the limiter answers every call as one that never evicts. */
  lemma EvictionIsInvisible(p: Policy, calls: seq<Call>, i: nat)
    requires InOrder(calls) && i < |calls|
    ensures Answer(p, true, calls, i) == Answer(p, false, calls, i)
  {
    RunsAgree(p, calls, i, calls[i].now);
    StepAgrees(p, After(p, true, calls, i), After(p, false, calls, i), calls[i]);
  }

  lemma {:induction false} AdmittedAgree(p: Policy, calls: seq<Call>, n: nat, key: string, lo: int, hi: int)
    requires InOrder(calls) && n <= |calls|
    ensures Admitted(p, true, calls, n, key, lo, hi) == Admitted(p, false, calls, n, key, lo, hi)
  {
    hide Answer, After, InOrder;
    if n > 0 {
      AdmittedAgree(p, calls, n - 1, key, lo, hi);
      EvictionIsInvisible(p, calls, n - 1);
    }
  }

  // ----- the map stays small

  function LiveKeys(p: Policy, m: Counters, now: int): set<string> {
    set k | k in m && !Stale(p, m[k], now)
  }

  predicate StartedBy(m: Counters, now: int) {
    forall k :: k in m ==> m[k].start <= now
  }

  lemma {:induction false} StartsInThePast(p: Policy, calls: seq<Call>, n: nat, now: int)
    requires InOrder(calls) && n <= |calls| && (n > 0 ==> calls[n - 1].now <= now)
    ensures StartedBy(After(p, true, calls, n), now)
  {
    if n > 0 {
      StartsInThePast(p, calls, n - 1, calls[n - 1].now);
    }
  }

  /** After every call the map holds at most 257 keys, or no more keys than have a live window. */
  lemma MapStaysSmall(p: Policy, calls: seq<Call>, n: nat)
    requires InOrder(calls) && NonZero(calls) && 0 < n <= |calls|
    ensures var m := After(p, true, calls, n);
      |m| <= SWEEP_ABOVE + 1 || |m| <= |LiveKeys(p, m, calls[n - 1].now)|
  {
    var c := calls[n - 1];
    var before, m := After(p, true, calls, n - 1), After(p, true, calls, n);
    StartsInThePast(p, calls, n - 1, c.now);
    if |before| <= SWEEP_ABOVE {
      assert m.Keys == before.Keys + {c.key};
      assert |m.Keys| <= |before.Keys| + 1;
    } else {
      var swept := Sweep(p, before, c.now);
      assert m == swept[c.key := Counted(p, Slot(swept, c.key), c.now)];
      if p.window <= 0 {
        assert swept.Keys == {};
        assert m.Keys == {c.key};
        assert |m.Keys| == 1;
      } else {
        assert m.Keys == LiveKeys(p, m, c.now);
      }
    }
  }

  // ----- how much is admitted

  function Max0(n: int): nat { if n < 0 then 0 else n }

  /** What the current window of the key has admitted. */
  function Spent(p: Policy, w: Window): nat { Max0(Min(w.count, p.limit)) }

  /** The bookkeeping behind both bounds, on the limiter that never evicts. */
  ghost predicate Booked(p: Policy, m: Counters, key: string, lo: int, hi: int, now: int, admitted: nat) {
    && (now < lo ==> admitted == 0)
    && if key !in m then admitted == 0
       else
         var w := m[key];
         && w.start != 0 && w.start <= now && w.count >= 1
         && (w.start < lo ==> admitted <= Max0(Spent(p, w) - 1))
         && (lo <= w.start < hi ==> admitted <= Max0(p.limit - 1) + Spent(p, w))
         && (hi <= w.start ==> admitted <= Max0(2 * p.limit - 1))
  }

  lemma {:induction false} RunBooked(p: Policy, calls: seq<Call>, n: nat, key: string, lo: int, hi: int, now: int)
    requires InOrder(calls) && NonZero(calls) && n <= |calls| && hi <= lo + p.window
    requires n > 0 ==> calls[n - 1].now <= now
    ensures Booked(p, After(p, false, calls, n), key, lo, hi, now, Admitted(p, false, calls, n, key, lo, hi))
  {
    if n > 0 {
      RunBooked(p, calls, n - 1, key, lo, hi, calls[n - 1].now);
    }
  }

  /** Over any interval no longer than the window, one key gets at most 2 * limit - 1 signups. */
  lemma AdmitsAtMostTwiceLessOne(p: Policy, calls: seq<Call>, key: string, lo: int, hi: int)
    requires InOrder(calls) && NonZero(calls) && hi <= lo + p.window
    ensures Admitted(p, true, calls, |calls|, key, lo, hi) <= Max0(2 * p.limit - 1)
  {
    var n := |calls|;
    AdmittedAgree(p, calls, n, key, lo, hi);
    RunBooked(p, calls, n, key, lo, hi, if n > 0 then calls[n - 1].now else 0);
  }

  lemma {:induction false} CallsPrecedeWindowEnd(p: Policy, calls: seq<Call>, n: nat, key: string)
    requires InOrder(calls) && NonZero(calls) && n <= |calls| && p.window > 0
    ensures var m := After(p, false, calls, n);
      forall i :: 0 <= i < n && calls[i].key == key ==> key in m && calls[i].now < m[key].start + p.window
  {
    if n > 0 { CallsPrecedeWindowEnd(p, calls, n - 1, key); }
  }

  lemma {:induction false} NothingYet(p: Policy, calls: seq<Call>, n: nat, key: string, lo: int, hi: int)
    requires n <= |calls| && forall i :: 0 <= i < n && calls[i].key == key ==> calls[i].now < lo
    ensures Admitted(p, false, calls, n, key, lo, hi) == 0
  {
    if n > 0 { NothingYet(p, calls, n - 1, key, lo, hi); }
  }

  lemma {:induction false} LongRunWindow(p: Policy, calls: seq<Call>, n: nat, key: string)
    requires InOrder(calls) && NonZero(calls) && n <= |calls| && p.window > 0
    requires key in After(p, false, calls, n)
    ensures var w := After(p, false, calls, n)[key];
      Admitted(p, false, calls, n, key, w.start, w.start + p.window) == Spent(p, w)
  {
    if n > 0 {
      var c := calls[n - 1];
      var before := After(p, false, calls, n - 1);
      RunBooked(p, calls, n - 1, key, 0, 0, c.now);
      if c.key == key && (key !in before || Stale(p, before[key], c.now)) {
        CallsPrecedeWindowEnd(p, calls, n - 1, key);
        NothingYet(p, calls, n - 1, key, c.now, c.now + p.window);
      } else {
        LongRunWindow(p, calls, n - 1, key);
      }
    }
  }

  /** Eviction removes entries and never alters one. */
  lemma {:induction false} EvictingKeepsEntries(p: Policy, calls: seq<Call>, n: nat, key: string)
    requires InOrder(calls) && n <= |calls| && key in After(p, true, calls, n)
    ensures var all := After(p, false, calls, n);
      key in all && all[key] == After(p, true, calls, n)[key]
  {
    if n > 0 {
      var c := calls[n - 1];
      var a := After(p, true, calls, n - 1);
      RunsAgree(p, calls, n - 1, c.now);
      assert Live(p, a, key, c.now) == Live(p, After(p, false, calls, n - 1), key, c.now);
      if key in a { EvictingKeepsEntries(p, calls, n - 1, key); }
    }
  }

  /** The window open at a stored start has admitted exactly the calls it counted, capped at the limit. */
  lemma WindowAdmitsItsCount(p: Policy, calls: seq<Call>, n: nat, key: string)
    requires InOrder(calls) && NonZero(calls) && n <= |calls| && p.window > 0
    requires key in After(p, true, calls, n)
    ensures var w := After(p, true, calls, n)[key];
      Admitted(p, true, calls, n, key, w.start, w.start + p.window) == Spent(p, w) <= Max0(p.limit)
  {
    hide After, Admitted, InOrder, NonZero;
    EvictingKeepsEntries(p, calls, n, key);
    LongRunWindow(p, calls, n, key);
    var w := After(p, true, calls, n)[key];
    AdmittedAgree(p, calls, n, key, w.start, w.start + p.window);
  }

  // ----- the bound is reached

  /** One call at time 1, limit - 1 more just before that window closes, then limit in the next window. */
  function Burst(p: Policy): (calls: seq<Call>)
    requires p.limit >= 1 && p.window >= 2
    ensures |calls| == 2 * p.limit && InOrder(calls) && NonZero(calls)
  {
    seq(2 * p.limit, i => Call("", if i == 0 then 1 else if i < p.limit then p.window else p.window + 1))
  }

  lemma {:induction false} BurstRun(p: Policy, n: nat)
    requires p.limit >= 1 && p.window >= 2 && n <= 2 * p.limit
    ensures var m := After(p, false, Burst(p), n);
      && (n > 0 ==> m == map["" := if n <= p.limit then Window(1, n) else Window(p.window + 1, n - p.limit)])
      && Admitted(p, false, Burst(p), n, "", 2, 2 + p.window) == Max0(n - 1)
  {
    hide InOrder, NonZero;
    if n > 0 {
      BurstRun(p, n - 1);
      var c := Burst(p)[n - 1];
      assert c.now == if n == 1 then 1 else if n <= p.limit then p.window else p.window + 1;
    }
  }

  /** No smaller bound holds: for every positive limit and every window of two ticks or more some run admits
      2 * limit - 1 calls within one window's length. */
  lemma BoundIsReached(p: Policy)
    requires p.limit >= 1 && p.window >= 2
    ensures Admitted(p, true, Burst(p), |Burst(p)|, "", 2, 2 + p.window) == 2 * p.limit - 1
  {
    hide After, Admitted, InOrder, NonZero;
    BurstRun(p, 2 * p.limit);
    AdmittedAgree(p, Burst(p), 2 * p.limit, "", 2, 2 + p.window);
  }
}
