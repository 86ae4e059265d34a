/** Receive as a function: which partitions one call polls, what it tracks, and which messages it returns. Partition i
    has the event log logs[i]. */
module ConsumerRuns {
  import opened Wrappers
  import opened CheckpointTracking

  /** A decoded event body. */
  datatype LogRecord = LogRecord(stream: string, envelope: string)

  /** An event; `body` is None when json.Unmarshal rejects it. */
  datatype Event = Event(sequenceNumber: int, body: Option<LogRecord>)

  /** A message handed to the caller, with the event its acknowledgement is about. */
  datatype Message = Message(stream: string, envelope: string, partition: nat, sequenceNumber: int)

  /** What one ReceiveEvents call does: returns up to n events, times out, or fails. */
  datatype Poll = Batch(n: nat) | Deadline | Fault

  /** A partition receiver: the client's place in the log, and the tracker. */
  datatype Receiver = Receiver(next: nat, tracker: Tracker)

  type Log = seq<Event>

  predicate LogOk(log: Log) {
    forall i, j :: 0 <= i < j < |log| ==> log[i].sequenceNumber < log[j].sequenceNumber
  }

  // ----- Receive

  /** The state of a Receive call between polls. */
  datatype Receiving = Receiving(receivers: seq<Receiver>, nextIndex: nat, messages: seq<Message>, failed: bool)

  /** How many events one poll yields. */
  function Yield(log: Log, next: nat, count: nat, poll: Poll): nat
    requires next <= |log|
  {
    if poll.Batch? then Min(poll.n, Min(count, |log| - next)) else 0
  }

  function ToMessage(stream: string, e: Event, partition: nat): Message
    requires e.body.Some?
  {
    Message(if e.body.value.stream == "" then stream else e.body.value.stream,
            e.body.value.envelope, partition, e.sequenceNumber)
  }

  /** Tracks and decodes log[lo..hi] in order, stopping after the first event that does not decode. */
  function Consume(stream: string, log: Log, t: Tracker, partition: nat, lo: nat, hi: nat): (r: (Tracker, seq<Message>, bool))
    requires lo <= hi <= |log|
    decreases hi - lo
  {
    if lo == hi then (t, [], true)
    else
      var e := log[lo];
      var t' := Track(t, e.sequenceNumber);
      if e.body.None? then (t', [], false)
      else
        var (t'', rest, ok) := Consume(stream, log, t', partition, lo + 1, hi);
        (t'', [ToMessage(stream, e, partition)] + rest, ok)
  }

  lemma ConsumeStep(stream: string, log: Log, t: Tracker, partition: nat, lo: nat, hi: nat)
    requires lo < hi <= |log|
    ensures var t' := Track(t, log[lo].sequenceNumber);
            var (t'', rest, ok) := Consume(stream, log, t', partition, lo + 1, hi);
            Consume(stream, log, t, partition, lo, hi) ==
              if log[lo].body.None? then (t', [], false) else (t'', [ToMessage(stream, log[lo], partition)] + rest, ok)
  {}

  lemma ConsumeEnd(stream: string, log: Log, t: Tracker, partition: nat)
    ensures Consume(stream, log, t, partition, |log|, |log|) == (t, [], true)
  {}

  /** Consuming a stretch of the log is consuming it as a batch of its own. */
  lemma {:induction false} ConsumeSlice(stream: string, log: Log, t: Tracker, partition: nat, start: nat, lo: nat, hi: nat)
    requires start <= lo <= hi <= |log|
    ensures Consume(stream, log[start..hi], t, partition, lo - start, hi - start) == Consume(stream, log, t, partition, lo, hi)
    decreases hi - lo
  {
    if lo < hi && log[lo].body.Some? {
      ConsumeSlice(stream, log, Track(t, log[lo].sequenceNumber), partition, start, lo + 1, hi);
    }
  }

  predicate Fits(rs: seq<Receiver>, logs: seq<Log>) {
    |rs| == |logs| && forall i :: 0 <= i < |rs| ==> rs[i].next <= |logs[i]|
  }

  /** One poll of one partition: its new state, the messages decoded, and whether all went well. */
  function PollPartition(stream: string, log: Log, r: Receiver, p: nat, count: nat, poll: Poll)
    : (result: (Receiver, seq<Message>, bool))
    requires r.next <= |log|
    ensures result.0.next <= |log| && |result.1| <= count
  {
    if poll.Fault? then (r, [], false)
    else
      var hi := r.next + Yield(log, r.next, count, poll);
      ConsumeCount(stream, log, r.tracker, p, r.next, hi);
      var (t, ms, ok) := Consume(stream, log, r.tracker, p, r.next, hi);
      (Receiver(hi, t), ms, ok)
  }

  /** One turn of Receive's loop. */
  function PollOne(stream: string, logs: seq<Log>, s: Receiving, limit: nat, poll: Poll): (s': Receiving)
    requires |logs| > 0 && Fits(s.receivers, logs) && |s.messages| <= limit && !s.failed
    ensures Fits(s'.receivers, logs)
    ensures |s'.messages| <= limit && s'.nextIndex == s.nextIndex + 1
  {
    var i := s.nextIndex % |logs|;
    var (r, ms, ok) := PollPartition(stream, logs[i], s.receivers[i], i, limit - |s.messages|, poll);
    Receiving(s.receivers[i := r], s.nextIndex + 1, s.messages + ms, !ok)
  }

  lemma {:induction false} ConsumeCount(stream: string, log: Log, t: Tracker, partition: nat, lo: nat, hi: nat)
    requires lo <= hi <= |log|
    ensures |Consume(stream, log, t, partition, lo, hi).1| <= hi - lo
    decreases hi - lo
  {
    if lo < hi && log[lo].body.Some? {
      ConsumeCount(stream, log, Track(t, log[lo].sequenceNumber), partition, lo + 1, hi);
    }
  }

  /** Receive's loop from its `checked`-th turn on; polls[checked] is what that turn meets. */
  function ReceiveFrom(stream: string, logs: seq<Log>, s: Receiving, checked: nat, limit: nat, polls: seq<Poll>): (s': Receiving)
    requires |logs| > 0 && Fits(s.receivers, logs) && |s.messages| <= limit
    requires checked <= |logs| == |polls|
    ensures Fits(s'.receivers, logs) && |s'.messages| <= limit
    decreases |logs| - checked
  {
    if s.failed || checked == |logs| || |s.messages| >= limit then s
    else ReceiveFrom(stream, logs, PollOne(stream, logs, s, limit, polls[checked]), checked + 1, limit, polls)
  }

  /** One turn of Receive, from what the poll of the next partition yields. */
  lemma ReceiveTurn(stream: string, logs: seq<Log>, s: Receiving, checked: nat, limit: nat, polls: seq<Poll>, s': Receiving)
    requires |logs| > 0 && Fits(s.receivers, logs) && |s.messages| < limit && !s.failed && checked < |logs| == |polls|
    requires var p := s.nextIndex % |logs|;
             var (r, ms, ok) := PollPartition(stream, logs[p], s.receivers[p], p, limit - |s.messages|, polls[checked]);
             s' == Receiving(s.receivers[p := r], s.nextIndex + 1, s.messages + ms, !ok)
    ensures Fits(s'.receivers, logs) && |s'.messages| <= limit
    ensures ReceiveFrom(stream, logs, s, checked, limit, polls) == ReceiveFrom(stream, logs, s', checked + 1, limit, polls)
  {}

  /** Receive stops when full, after every partition, or on failure. */
  lemma ReceiveEnd(stream: string, logs: seq<Log>, s: Receiving, checked: nat, limit: nat, polls: seq<Poll>)
    requires |logs| > 0 && Fits(s.receivers, logs) && |s.messages| <= limit && checked <= |logs| == |polls|
    requires s.failed || checked == |logs| || |s.messages| == limit
    ensures ReceiveFrom(stream, logs, s, checked, limit, polls) == s
  {}

  /** Receive asks for at least one message. */
  function Limit(limit: int): nat {
    if limit <= 0 then 1 else limit
  }

  // ----- what a Receive leaves

  /** The turns Receive takes: it stops when full, after every partition, or on failure. */
  function Turns(stream: string, logs: seq<Log>, s: Receiving, checked: nat, limit: nat, polls: seq<Poll>): nat
    requires |logs| > 0 && Fits(s.receivers, logs) && |s.messages| <= limit
    requires checked <= |logs| == |polls|
    decreases |logs| - checked
  {
    if s.failed || checked == |logs| || |s.messages| >= limit then 0
    else 1 + Turns(stream, logs, PollOne(stream, logs, s, limit, polls[checked]), checked + 1, limit, polls)
  }

  /** The partitions polled in `turns` turns from a rotating index. */
  function Polled(start: nat, turns: nat, n: nat): seq<nat>
    requires n > 0
  {
    seq(turns, k requires 0 <= k < turns => (start + k) % n)
  }

  lemma ModDistinct(a: nat, b: nat, n: nat)
    requires n > 0 && a < b < a + n
    ensures a % n != b % n
  {
    if a % n == b % n {
      assert a == n * (a / n) + a % n && b == n * (b / n) + b % n;
      assert b - a == n * (b / n - a / n);
      if b / n - a / n >= 1 { MulAtLeast(n, b / n - a / n); } else { MulAtMost(n, b / n - a / n); }
    }
  }

  lemma MulAtLeast(n: nat, q: int)
    requires q >= 1
    ensures n * q >= n
  {}

  lemma MulAtMost(n: nat, q: int)
    requires q <= 0
    ensures n * q <= 0
  {}

  /** n consecutive turns poll each of n partitions once, wherever the index stands. */
  lemma EveryPartitionOnce(start: nat, n: nat)
    requires n > 0
    ensures forall i, j :: 0 <= i < j < n ==> Polled(start, n, n)[i] != Polled(start, n, n)[j]
    ensures forall p :: 0 <= p < n ==> p in Polled(start, n, n)
  {
    var ps := Polled(start, n, n);
    forall i, j | 0 <= i < j < n ensures ps[i] != ps[j] { ModDistinct(start + i, start + j, n); }
    forall p | 0 <= p < n ensures p in ps {
      var k := (p + n - start % n) % n;
      ModShift(start, p, n);
      assert ps[k] == p;
    }
  }

  lemma ModShift(start: nat, p: nat, n: nat)
    requires 0 <= p < n
    ensures (start + (p + n - start % n) % n) % n == p
  {
    var q, r := start / n, start % n;
    assert start == n * q + r;
    if p >= r {
      ModUnique(p + n - r, n, 1, p - r);
      ModUnique(start + (p - r), n, q, p);
    } else {
      ModUnique(p + n - r, n, 0, p + n - r);
      MulDistributes(n, q);
      ModUnique(start + (p + n - r), n, q + 1, p);
    }
  }

  lemma MulDistributes(n: nat, q: nat)
    ensures n * (q + 1) == n * q + n
  {}

  lemma MulAtMinus(n: nat, q: int)
    requires q <= -1
    ensures n * q <= -(n as int)
  {}

  lemma ModUnique(a: nat, n: nat, q: nat, r: nat)
    requires r < n && a == n * q + r
    ensures a % n == r
  {
    var d := a / n - q;
    assert a == n * (a / n) + a % n;
    assert n * d == r - a % n;
    if d >= 1 { MulAtLeast(n, d); } else if d <= -1 { MulAtMinus(n, d); }
  }

  /** The events fetched between two receiver states, partition by partition, in poll order. */
  ghost predicate Returned(stream: string, logs: seq<Log>, before: Receiving, after: Receiving, messages: seq<Message>)
    requires Fits(before.receivers, logs) && Fits(after.receivers, logs)
  {
    forall i :: 0 <= i < |logs| ==>
      before.receivers[i].next <= after.receivers[i].next &&
      FromPartition(messages, i) == Decoded(stream, logs[i], i, before.receivers[i].next, after.receivers[i].next)
  }

  /** The messages of one partition, in order. */
  function FromPartition(ms: seq<Message>, i: nat): seq<Message> {
    if ms == [] then []
    else FromPartition(ms[..|ms| - 1], i) + (if ms[|ms| - 1].partition == i then [ms[|ms| - 1]] else [])
  }

  /** log[lo..hi] as messages; an event that does not decode has none. */
  function Decoded(stream: string, log: Log, i: nat, lo: nat, hi: nat): seq<Message>
    requires lo <= hi <= |log|
    decreases hi - lo
  {
    if lo == hi then []
    else (if log[lo].body.Some? then [ToMessage(stream, log[lo], i)] else []) + Decoded(stream, log, i, lo + 1, hi)
  }

  lemma {:induction false} FromPartitionAppend(a: seq<Message>, b: seq<Message>, i: nat)
    ensures FromPartition(a + b, i) == FromPartition(a, i) + FromPartition(b, i)
  {
    if b == [] {
      assert a + b == a;
    } else {
      assert (a + b)[..|a + b| - 1] == a + b[..|b| - 1];
      FromPartitionAppend(a, b[..|b| - 1], i);
    }
  }

  lemma {:induction false} FromPartitionUniform(ms: seq<Message>, p: nat, i: nat)
    requires forall k :: 0 <= k < |ms| ==> ms[k].partition == p
    ensures FromPartition(ms, i) == if i == p then ms else []
  {
    if ms != [] { FromPartitionUniform(ms[..|ms| - 1], p, i); }
  }

  lemma {:induction false} DecodedAppend(stream: string, log: Log, i: nat, a: nat, b: nat, c: nat)
    requires a <= b <= c <= |log|
    ensures Decoded(stream, log, i, a, c) == Decoded(stream, log, i, a, b) + Decoded(stream, log, i, b, c)
    decreases b - a
  {
    if a < b { DecodedAppend(stream, log, i, a + 1, b, c); }
  }

  lemma {:induction false} ConsumeDecodes(stream: string, log: Log, t: Tracker, i: nat, lo: nat, hi: nat)
    requires lo <= hi <= |log|
    ensures var (_, ms, ok) := Consume(stream, log, t, i, lo, hi);
            && (ok ==> ms == Decoded(stream, log, i, lo, hi) && |ms| == hi - lo)
            && (ok <==> forall k :: lo <= k < hi ==> log[k].body.Some?)
            && (forall k :: 0 <= k < |ms| ==> ms[k].partition == i)
    decreases hi - lo
  {
    hide Track;
    if lo < hi && log[lo].body.Some? {
      ConsumeDecodes(stream, log, Track(t, log[lo].sequenceNumber), i, lo + 1, hi);
    }
  }

  lemma PollOneReturns(stream: string, logs: seq<Log>, s: Receiving, limit: nat, poll: Poll)
    requires |logs| > 0 && Fits(s.receivers, logs) && |s.messages| <= limit && !s.failed
    requires !PollOne(stream, logs, s, limit, poll).failed
    ensures var s' := PollOne(stream, logs, s, limit, poll);
            && s.messages <= s'.messages
            && Returned(stream, logs, s, s', s'.messages[|s.messages|..])
  {
    var i := s.nextIndex % |logs|;
    var r := s.receivers[i];
    var hi := r.next + Yield(logs[i], r.next, limit - |s.messages|, poll);
    var (t, ms, ok) := Consume(stream, logs[i], r.tracker, i, r.next, hi);
    var s' := PollOne(stream, logs, s, limit, poll);
    assert s'.receivers == s.receivers[i := Receiver(hi, t)] && s'.messages == s.messages + ms && ok;
    ConsumeDecodes(stream, logs[i], r.tracker, i, r.next, hi);
    assert s'.messages[|s.messages|..] == ms;
    forall j | 0 <= j < |logs|
      ensures s.receivers[j].next <= s'.receivers[j].next
      ensures FromPartition(ms, j) == Decoded(stream, logs[j], j, s.receivers[j].next, s'.receivers[j].next)
    {
      FromPartitionUniform(ms, i, j);
    }
  }

  lemma {:induction false} ReceiveTurns(stream: string, logs: seq<Log>, s: Receiving, checked: nat, limit: nat, polls: seq<Poll>)
    requires |logs| > 0 && Fits(s.receivers, logs) && |s.messages| <= limit
    requires checked <= |logs| == |polls|
    requires !ReceiveFrom(stream, logs, s, checked, limit, polls).failed
    ensures var s' := ReceiveFrom(stream, logs, s, checked, limit, polls);
            var turns := Turns(stream, logs, s, checked, limit, polls);
            && s'.nextIndex == s.nextIndex + turns
            && checked + turns <= |logs|
            && (|s'.messages| < limit ==> checked + turns == |logs|)
    decreases |logs| - checked
  {
    if !(s.failed || checked == |logs| || |s.messages| >= limit) {
      ReceiveTurns(stream, logs, PollOne(stream, logs, s, limit, polls[checked]), checked + 1, limit, polls);
    }
  }

  lemma {:induction false} ReceiveReturns(stream: string, logs: seq<Log>, s: Receiving, checked: nat, limit: nat, polls: seq<Poll>)
    requires |logs| > 0 && Fits(s.receivers, logs) && |s.messages| <= limit
    requires checked <= |logs| == |polls|
    requires !ReceiveFrom(stream, logs, s, checked, limit, polls).failed
    ensures var s' := ReceiveFrom(stream, logs, s, checked, limit, polls);
            s.messages <= s'.messages && Returned(stream, logs, s, s', s'.messages[|s.messages|..])
    decreases |logs| - checked
  {
    hide PollOne;
    if s.failed || checked == |logs| || |s.messages| >= limit {
      assert s.messages[|s.messages|..] == [];
    } else {
      var m := PollOne(stream, logs, s, limit, polls[checked]);
      PollOneReturns(stream, logs, s, limit, polls[checked]);
      ReceiveReturns(stream, logs, m, checked + 1, limit, polls);
      var s' := ReceiveFrom(stream, logs, s, checked, limit, polls);
      var a, b := m.messages[|s.messages|..], s'.messages[|m.messages|..];
      assert s'.messages[|s.messages|..] == a + b;
      ReturnedCompose(stream, logs, s, m, s', a, b);
    }
  }

  lemma ReturnedCompose(stream: string, logs: seq<Log>, s: Receiving, m: Receiving, s': Receiving, a: seq<Message>, b: seq<Message>)
    requires Fits(s.receivers, logs) && Fits(m.receivers, logs) && Fits(s'.receivers, logs)
    requires Returned(stream, logs, s, m, a) && Returned(stream, logs, m, s', b)
    ensures Returned(stream, logs, s, s', a + b)
  {
    forall j | 0 <= j < |logs|
      ensures FromPartition(a + b, j) == Decoded(stream, logs[j], j, s.receivers[j].next, s'.receivers[j].next)
    {
      FromPartitionAppend(a, b, j);
      DecodedAppend(stream, logs[j], j, s.receivers[j].next, m.receivers[j].next, s'.receivers[j].next);
    }
  }

  /** A Receive that succeeds returns every event it fetched and no more than it was asked for;
      when it returns fewer, it polled every partition exactly once. */
  lemma ReceiveIsComplete(stream: string, logs: seq<Log>, rs: seq<Receiver>, nextIndex: nat, limit: int, polls: seq<Poll>)
    requires |logs| > 0 && Fits(rs, logs) && |polls| == |logs|
    requires !ReceiveFrom(stream, logs, Receiving(rs, nextIndex, [], false), 0, Limit(limit), polls).failed
    ensures var s := Receiving(rs, nextIndex, [], false);
            var s' := ReceiveFrom(stream, logs, s, 0, Limit(limit), polls);
            var polled := Polled(nextIndex, Turns(stream, logs, s, 0, Limit(limit), polls), |logs|);
            && |s'.messages| <= Limit(limit)
            && s'.nextIndex == nextIndex + |polled|
            && Returned(stream, logs, s, s', s'.messages)
            && (|s'.messages| < Limit(limit) ==>
                  && |polled| == |logs|
                  && (forall i, j :: 0 <= i < j < |polled| ==> polled[i] != polled[j])
                  && (forall p :: 0 <= p < |logs| ==> p in polled))
  {
    var s := Receiving(rs, nextIndex, [], false);
    ReceiveReturns(stream, logs, s, 0, Limit(limit), polls);
    ReceiveTurns(stream, logs, s, 0, Limit(limit), polls);
    EveryPartitionOnce(nextIndex, |logs|);
    var s' := ReceiveFrom(stream, logs, s, 0, Limit(limit), polls);
    assert s'.messages[0..] == s'.messages;
  }
}
