/** At-least-once delivery: in every run of polls, acknowledgements, failed persists, crashes and
    restarts, the checkpoint on disk never covers an event that nobody acknowledged. */
module AtLeastOnce {
  import opened Wrappers
  import opened CheckpointTracking
  import opened ConsumerRuns

  /** The configuration of a run: partition names in sorted order, and the log of each. */
  datatype Config = Config(stream: string, ids: seq<string>, logs: seq<Log>, durable: bool)

  ghost predicate ConfigOk(c: Config) {
    && |c.ids| == |c.logs|
    && (forall i, j :: 0 <= i < j < |c.ids| ==> c.ids[i] != c.ids[j])
    && (forall i :: 0 <= i < |c.logs| ==> LogOk(c.logs[i]))
  }

  /** One process: its receivers, the messages it has handed out, and its checkpoint store. */
  datatype Session = Session(receivers: seq<Receiver>, nextIndex: nat, handles: seq<set<int>>, store: Store)

  /** `acked[i]` holds every sequence number of partition i acknowledged in some session. */
  datatype World = World(file: File, session: Session, acked: seq<set<int>>)

  datatype Step =
    | ReceiveStep(limit: int, polls: seq<Poll>)
    | AckStep(partition: nat, n: int, readable: bool, write: Write)
    | RestartStep(readable: bool)

  // ----- the steps

  /** The first event after the start position. */
  function StartIndex(log: Log, start: Option<int>, i: nat): (r: nat)
    requires i <= |log|
    ensures i <= r <= |log|
    ensures start.Some? ==> forall k :: i <= k < r ==> log[k].sequenceNumber <= start.value
    ensures r < |log| && start.Some? ==> start.value < log[r].sequenceNumber
    ensures start.None? ==> r == i
    decreases |log| - i
  {
    if start.None? || i == |log| || start.value < log[i].sequenceNumber then i else StartIndex(log, start, i + 1)
  }

  function Opened(log: Log, start: Option<int>): Receiver {
    Receiver(StartIndex(log, start, 0), Tracker(start, []))
  }

  /** openAzurePartitions: start positions are asked in partition order, and only the first
      question reads the file. */
  function OpenFrom(c: Config, s: Store, f: File, readable: bool, i: nat): (r: (Store, seq<Receiver>))
    requires |c.ids| == |c.logs| && i <= |c.ids|
    ensures |r.1| == |c.ids| - i
    decreases |c.ids| - i
  {
    if i == |c.ids| then (s, [])
    else
      var (s1, start) := StartPosition(s, f, readable, c.ids[i]);
      var (s2, rest) := OpenFrom(c, s1, f, readable, i + 1);
      (s2, [Opened(c.logs[i], start)] + rest)
  }

  lemma OpenFromEnd(c: Config, s: Store, f: File, readable: bool)
    requires |c.ids| == |c.logs|
    ensures OpenFrom(c, s, f, readable, |c.ids|) == (s, [])
  {}

  function Restart(c: Config, f: File, readable: bool): (s: Session)
    requires |c.ids| == |c.logs|
    ensures |s.receivers| == |s.handles| == |c.logs|
  {
    var (store, receivers) := OpenFrom(c, Store(c.durable, false, NO_CHECKPOINTS), f, readable, 0);
    Session(receivers, 0, seq(|c.logs|, i => {}), store)
  }

  ghost predicate Shaped(c: Config, w: World) {
    && ConfigOk(c)
    && |w.session.handles| == |w.acked| == |c.logs|
    && Fits(w.session.receivers, c.logs)
  }

  /** The numbers of the messages of partition i. */
  function Numbers(ms: seq<Message>, i: nat): set<int> {
    set k | 0 <= k < |ms| && ms[k].partition == i :: ms[k].sequenceNumber
  }

  /** A successful Receive hands its messages out; a failed one drops them. */
  function Received(c: Config, w: World, limit: int, polls: seq<Poll>): World
    requires |c.logs| > 0 && |polls| == |c.logs| && Fits(w.session.receivers, c.logs) && |w.session.handles| == |c.logs|
  {
    var s0 := Receiving(w.session.receivers, w.session.nextIndex, [], false);
    var s := ReceiveFrom(c.stream, c.logs, s0, 0, Limit(limit), polls);
    w.(session := w.session.(receivers := s.receivers, nextIndex := s.nextIndex,
       handles := if s.failed then w.session.handles
                  else seq(|c.logs|, i requires 0 <= i < |w.session.handles| => w.session.handles[i] + Numbers(s.messages, i))))
  }

  /** The acknowledgement of a handed-out message, whatever the store and the disk answer. */
  function Acked(c: Config, w: World, i: nat, n: int, readable: bool, write: Write): World
    requires i < |c.ids| == |w.session.receivers| == |w.acked|
  {
    var r := w.session.receivers[i];
    var acked := w.acked[i := w.acked[i] + {n}];
    match Request(r.tracker, n)
    case None =>
      World(w.file, w.session.(receivers := w.session.receivers[i := r.(tracker := Acknowledge(r.tracker, n, false))]), acked)
    case Some(commit) =>
      var (store, file, ok) := Record(w.session.store, w.file, readable, c.ids[i], commit, write);
      World(file, w.session.(store := store,
            receivers := w.session.receivers[i := r.(tracker := Acknowledge(r.tracker, n, ok))]), acked)
  }

  ghost function Next(c: Config, w: World, step: Step): World
    requires Shaped(c, w)
  {
    match step
    case ReceiveStep(limit, polls) =>
      if |c.logs| == 0 || |polls| != |c.logs| then w else Received(c, w, limit, polls)
    case AckStep(i, n, readable, write) =>
      if i < |c.ids| && n in w.session.handles[i] then Acked(c, w, i, n, readable, write) else w
    case RestartStep(readable) => w.(session := Restart(c, w.file, readable))
  }

  // ----- what one partition keeps

  /** Every event of the log at or below n was acknowledged. */
  ghost predicate Covered(log: Log, acked: set<int>, n: int) {
    forall i :: 0 <= i < |log| && log[i].sequenceNumber <= n ==> log[i].sequenceNumber in acked
  }

  predicate Sorted(ds: seq<Delivered>) {
    forall i, j :: 0 <= i < j < |ds| ==> ds[i].sequenceNumber < ds[j].sequenceNumber
  }

  /** An entry below n that is not acknowledged and that no message can acknowledge. */
  predicate BlockedBelow(t: Tracker, handles: set<int>, n: int) {
    exists k :: 0 <= k < |t.delivered| && t.delivered[k].sequenceNumber < n &&
      !t.delivered[k].acknowledged && t.delivered[k].sequenceNumber !in handles
  }

  /** Tracking precedes decoding, so an event that was fetched and is neither committed nor tracked
      lies above an entry that blocks the prefix for good. */
  ghost predicate PartitionInv(log: Log, r: Receiver, handles: set<int>, acked: set<int>) {
    var t := r.tracker;
    && LogOk(log) && r.next <= |log|
    && Sorted(t.delivered)
    && (forall k :: 0 <= k < |t.delivered| ==> !Past(t, t.delivered[k].sequenceNumber))
    && (forall k :: 0 <= k < |t.delivered| && t.delivered[k].acknowledged ==> t.delivered[k].sequenceNumber in acked)
    && (t.committed.Some? ==> Covered(log, acked, t.committed.value))
    && (forall i :: r.next <= i < |log| ==> Ahead(t, log[i].sequenceNumber))
    && (forall n :: n in handles ==> Past(t, n) || Tracks(t.delivered, n))
    && (forall n, i :: n in handles && r.next <= i < |log| ==> n < log[i].sequenceNumber)
    && (forall i :: 0 <= i < r.next ==> Accounted(t, handles, log[i].sequenceNumber))
  }

  /** n is above the commit and above every tracked entry. */
  predicate Ahead(t: Tracker, n: int) {
    !Past(t, n) && forall k :: 0 <= k < |t.delivered| ==> t.delivered[k].sequenceNumber < n
  }

  predicate Accounted(t: Tracker, handles: set<int>, n: int) {
    Past(t, n) || Tracks(t.delivered, n) || BlockedBelow(t, handles, n)
  }

  lemma FewerHandles(log: Log, r: Receiver, handles: set<int>, fewer: set<int>, acked: set<int>)
    requires PartitionInv(log, r, handles, acked) && fewer <= handles
    ensures PartitionInv(log, r, fewer, acked)
  {
    forall i | 0 <= i < r.next ensures Accounted(r.tracker, fewer, log[i].sequenceNumber) {
      assert Accounted(r.tracker, handles, log[i].sequenceNumber);
    }
  }

  /** A new entry above everything accounts for all that was accounted for below it. */
  lemma AppendAccounts(t: Tracker, n: int, handles: set<int>, m: int)
    requires Accounted(t, handles, m) && m < n
    ensures Accounted(t.(delivered := t.delivered + [Delivered(n, false)]), handles + {n}, m)
  {
    var d := t.delivered + [Delivered(n, false)];
    if Tracks(t.delivered, m) {
      var k :| 0 <= k < |t.delivered| && t.delivered[k].sequenceNumber == m;
      assert d[k].sequenceNumber == m;
    } else if BlockedBelow(t, handles, m) {
      var k :| 0 <= k < |t.delivered| && t.delivered[k].sequenceNumber < m
        && !t.delivered[k].acknowledged && t.delivered[k].sequenceNumber !in handles;
      assert d[k] == t.delivered[k];
    }
  }

  /** Tracking the next event of the log. */
  lemma TrackKeeps(log: Log, r: Receiver, handles: set<int>, acked: set<int>)
    requires PartitionInv(log, r, handles, acked) && r.next < |log|
    ensures var n := log[r.next].sequenceNumber;
            var r' := Receiver(r.next + 1, Track(r.tracker, n));
            && PartitionInv(log, r', handles, acked)
            && PartitionInv(log, r', handles + {n}, acked)
            && n !in handles
            && r'.tracker.committed == r.tracker.committed
            && r'.tracker.delivered == r.tracker.delivered + [Delivered(n, false)]
  {
    var n := log[r.next].sequenceNumber;
    var t := r.tracker;
    assert Ahead(t, n);
    var t' := Track(t, n);
    assert t'.delivered == t.delivered + [Delivered(n, false)];
    assert t'.delivered[|t.delivered|] == Delivered(n, false);
    forall m | Accounted(t, handles, m) && m < n ensures Accounted(t', handles + {n}, m) {
      AppendAccounts(t, n, handles, m);
    }
    var r' := Receiver(r.next + 1, t');
    forall i | 0 <= i < r'.next ensures Accounted(t', handles + {n}, log[i].sequenceNumber) {
      if i < r.next { assert log[i].sequenceNumber < log[r.next].sequenceNumber; }
    }
    forall m | m in handles + {n} ensures Past(t', m) || Tracks(t'.delivered, m) {
      if m in handles && Tracks(t.delivered, m) {
        var k :| 0 <= k < |t.delivered| && t.delivered[k].sequenceNumber == m;
        assert t'.delivered[k].sequenceNumber == m;
      }
    }
    FewerHandles(log, r', handles + {n}, handles, acked);
  }

  /** Fetching on past an entry that blocks the prefix. */
  lemma SkipKeeps(log: Log, r: Receiver, handles: set<int>, acked: set<int>, hi: nat)
    requires PartitionInv(log, r, handles, acked) && r.next <= hi <= |log|
    requires r.next < hi ==> BlockedBelow(r.tracker, handles, log[r.next].sequenceNumber)
    ensures PartitionInv(log, r.(next := hi), handles, acked)
  {
    forall i | 0 <= i < hi ensures Accounted(r.tracker, handles, log[i].sequenceNumber) {
      if i >= r.next {
        assert log[r.next].sequenceNumber <= log[i].sequenceNumber;
      }
    }
  }

  lemma NumbersCons(m: Message, rest: seq<Message>, i: nat)
    requires m.partition == i
    ensures Numbers([m] + rest, i) == {m.sequenceNumber} + Numbers(rest, i)
  {
    var ms := [m] + rest;
    forall n | n in {m.sequenceNumber} + Numbers(rest, i) ensures n in Numbers(ms, i) {
      if n == m.sequenceNumber {
        assert ms[0].sequenceNumber == n;
      } else {
        var k :| 0 <= k < |rest| && rest[k].partition == i && rest[k].sequenceNumber == n;
        assert ms[k + 1] == rest[k];
      }
    }
  }

  lemma NumbersAppend(a: seq<Message>, b: seq<Message>, i: nat)
    ensures Numbers(a + b, i) == Numbers(a, i) + Numbers(b, i)
  {
    forall n | n in Numbers(a, i) + Numbers(b, i) ensures n in Numbers(a + b, i) {
      if n in Numbers(a, i) {
        var k :| 0 <= k < |a| && a[k].partition == i && a[k].sequenceNumber == n;
        assert (a + b)[k] == a[k];
      } else {
        var k :| 0 <= k < |b| && b[k].partition == i && b[k].sequenceNumber == n;
        assert (a + b)[|a| + k] == b[k];
      }
    }
  }

  /** A fetched batch: when it decodes its messages may be handed out, and when it does not the
      unread rest of it stays behind a blocked entry. */
  lemma {:induction false} ConsumeKeeps(stream: string, log: Log, r: Receiver, handles: set<int>, acked: set<int>,
                                        i: nat, hi: nat)
    requires PartitionInv(log, r, handles, acked) && r.next <= hi <= |log|
    ensures var (t, ms, ok) := Consume(stream, log, r.tracker, i, r.next, hi);
            PartitionInv(log, Receiver(hi, t), if ok then handles + Numbers(ms, i) else handles, acked)
    decreases hi - r.next
  {
    if r.next == hi {
      assert handles + Numbers([], i) == handles;
    } else {
      var e := log[r.next];
      var r' := Receiver(r.next + 1, Track(r.tracker, e.sequenceNumber));
      TrackKeeps(log, r, handles, acked);
      if e.body.None? {
        UndecodableKeeps(log, r', handles, acked, e.sequenceNumber, hi);
      } else {
        ConsumeKeeps(stream, log, r', handles + {e.sequenceNumber}, acked, i, hi);
        var (t, rest, ok) := Consume(stream, log, r'.tracker, i, r'.next, hi);
        NumbersCons(ToMessage(stream, e, i), rest, i);
        if ok {
          assert handles + {e.sequenceNumber} + Numbers(rest, i) == handles + ({e.sequenceNumber} + Numbers(rest, i));
        } else {
          FewerHandles(log, Receiver(hi, t), handles + {e.sequenceNumber}, handles, acked);
        }
      }
    }
  }

  /** The event that did not decode is the last one tracked, and blocks what follows. */
  lemma UndecodableKeeps(log: Log, r: Receiver, handles: set<int>, acked: set<int>, n: int, hi: nat)
    requires PartitionInv(log, r, handles, acked) && 0 < r.next <= hi <= |log|
    requires n == log[r.next - 1].sequenceNumber && n !in handles
    requires var ds := r.tracker.delivered; ds != [] && ds[|ds| - 1] == Delivered(n, false)
    ensures PartitionInv(log, r.(next := hi), handles, acked)
  {
    if r.next < hi { assert log[r.next - 1].sequenceNumber < log[r.next].sequenceNumber; }
    SkipKeeps(log, r, handles, acked, hi);
  }

  /** During a Receive, the messages collected so far count as handed out. */
  ghost predicate ReceivingInv(logs: seq<Log>, s: Receiving, handles: seq<set<int>>, acked: seq<set<int>>)
    requires |handles| == |acked| == |logs| && Fits(s.receivers, logs)
  {
    forall i :: 0 <= i < |logs| ==>
      PartitionInv(logs[i], s.receivers[i], if s.failed then handles[i] else handles[i] + Numbers(s.messages, i), acked[i])
  }

  lemma ConsumePartition(stream: string, log: Log, t: Tracker, p: nat, lo: nat, hi: nat, i: nat)
    requires lo <= hi <= |log| && p != i
    ensures Numbers(Consume(stream, log, t, p, lo, hi).1, i) == {}
  {
    ConsumeDecodes(stream, log, t, p, lo, hi);
  }

  lemma PollOneKeeps(stream: string, logs: seq<Log>, s: Receiving, limit: nat, poll: Poll,
                     handles: seq<set<int>>, acked: seq<set<int>>)
    requires |logs| > 0 && Fits(s.receivers, logs) && |s.messages| <= limit && !s.failed
    requires |handles| == |acked| == |logs| && ReceivingInv(logs, s, handles, acked)
    ensures ReceivingInv(logs, PollOne(stream, logs, s, limit, poll), handles, acked)
  {
    hide PartitionInv, Consume;
    var p := s.nextIndex % |logs|;
    var r := s.receivers[p];
    var hi := r.next + Yield(logs[p], r.next, limit - |s.messages|, poll);
    var (t, ms, ok) := Consume(stream, logs[p], r.tracker, p, r.next, hi);
    var s' := PollOne(stream, logs, s, limit, poll);
    forall i | 0 <= i < |logs|
      ensures var h := if s'.failed then handles[i] else handles[i] + Numbers(s'.messages, i);
        PartitionInv(logs[i], s'.receivers[i], h, acked[i])
    {
      var h := handles[i] + Numbers(s.messages, i);
      assert PartitionInv(logs[i], s.receivers[i], h, acked[i]);
      if poll.Fault? {
        FewerHandles(logs[i], s.receivers[i], h, handles[i], acked[i]);
      } else {
        NumbersAppend(s.messages, ms, i);
        if i == p {
          ConsumeKeeps(stream, logs[i], r, h, acked[i], p, hi);
          if ok {
            assert h + Numbers(ms, i) == handles[i] + Numbers(s'.messages, i);
          } else {
            FewerHandles(logs[i], s'.receivers[i], h, handles[i], acked[i]);
          }
        } else {
          ConsumePartition(stream, logs[p], r.tracker, p, r.next, hi, i);
          assert h == handles[i] + Numbers(s.messages + ms, i);
          if !ok { FewerHandles(logs[i], s.receivers[i], h, handles[i], acked[i]); }
        }
      }
    }
  }

  lemma {:induction false} ReceiveKeeps(stream: string, logs: seq<Log>, s: Receiving, checked: nat, limit: nat, polls: seq<Poll>,
                                        handles: seq<set<int>>, acked: seq<set<int>>)
    requires |logs| > 0 && Fits(s.receivers, logs) && |s.messages| <= limit && checked <= |logs| == |polls|
    requires |handles| == |acked| == |logs| && ReceivingInv(logs, s, handles, acked)
    ensures ReceivingInv(logs, ReceiveFrom(stream, logs, s, checked, limit, polls), handles, acked)
    decreases |logs| - checked
  {
    if !(s.failed || checked == |logs| || |s.messages| >= limit) {
      PollOneKeeps(stream, logs, s, limit, polls[checked], handles, acked);
      ReceiveKeeps(stream, logs, PollOne(stream, logs, s, limit, polls[checked]), checked + 1, limit, polls, handles, acked);
    }
  }

  // ----- acknowledging

  /** Marking the entry of a handed-out message. */
  lemma MarkKeeps(log: Log, r: Receiver, handles: set<int>, acked: set<int>, n: int)
    requires PartitionInv(log, r, handles, acked) && n in handles && !Past(r.tracker, n)
    ensures var t' := r.tracker.(delivered := Mark(r.tracker.delivered, n));
            && PartitionInv(log, r.(tracker := t'), handles, acked + {n})
            && |t'.delivered| == |r.tracker.delivered|
  {
    var t := r.tracker;
    var k := Find(t.delivered, n, 0);
    assert Tracks(t.delivered, n);
    var t' := t.(delivered := Mark(t.delivered, n));
    assert t'.delivered == t.delivered[k := Delivered(n, true)];
    forall m | Accounted(t, handles, m) ensures Accounted(t', handles, m) {
      if Tracks(t.delivered, m) {
        var j :| 0 <= j < |t.delivered| && t.delivered[j].sequenceNumber == m;
        assert t'.delivered[j].sequenceNumber == m;
      } else if BlockedBelow(t, handles, m) {
        var j :| 0 <= j < |t.delivered| && t.delivered[j].sequenceNumber < m
          && !t.delivered[j].acknowledged && t.delivered[j].sequenceNumber !in handles;
        assert j != k && t'.delivered[j] == t.delivered[j];
      }
    }
    forall m | m in handles ensures Past(t', m) || Tracks(t'.delivered, m) {
      if Tracks(t.delivered, m) {
        var j :| 0 <= j < |t.delivered| && t.delivered[j].sequenceNumber == m;
        assert t'.delivered[j].sequenceNumber == m;
      }
    }
  }

  /** Everything at or below the end of an acknowledged head was acknowledged. */
  lemma HeadIsCovered(log: Log, r: Receiver, handles: set<int>, acked: set<int>, k: nat)
    requires PartitionInv(log, r, handles, acked) && k == AckedPrefix(r.tracker.delivered) && k > 0
    ensures Covered(log, acked, r.tracker.delivered[k - 1].sequenceNumber)
  {
    var ds := r.tracker.delivered;
    var c := ds[k - 1].sequenceNumber;
    HeadEntries(ds, k);
    forall i | 0 <= i < |log| && log[i].sequenceNumber <= c ensures log[i].sequenceNumber in acked {
      var n := log[i].sequenceNumber;
      assert i >= r.next ==> Ahead(r.tracker, n);
      assert Accounted(r.tracker, handles, n);
    }
  }

  lemma HeadEntries(ds: seq<Delivered>, k: nat)
    requires Sorted(ds) && 0 < k == AckedPrefix(ds)
    ensures forall j :: 0 <= j < |ds| && ds[j].sequenceNumber <= ds[k - 1].sequenceNumber ==> ds[j].acknowledged
  {}

  /** Committing a head moves each of its entries from tracked to past. */
  lemma CommitAccounts(t: Tracker, handles: set<int>, k: nat, n: int)
    requires Sorted(t.delivered) && 0 < k <= |t.delivered| && forall j :: 0 <= j < k ==> t.delivered[j].acknowledged
    requires !Past(t, t.delivered[k - 1].sequenceNumber)
    ensures var t' := Tracker(Some(t.delivered[k - 1].sequenceNumber), t.delivered[k..]);
            && (Past(t, n) || Tracks(t.delivered, n) ==> Past(t', n) || Tracks(t'.delivered, n))
            && (Accounted(t, handles, n) ==> Accounted(t', handles, n))
  {
    var ds := t.delivered;
    var c := ds[k - 1].sequenceNumber;
    var t' := Tracker(Some(c), ds[k..]);
    if Tracks(ds, n) {
      var j :| 0 <= j < |ds| && ds[j].sequenceNumber == n;
      if j >= k { assert t'.delivered[j - k].sequenceNumber == n; } else if j < k - 1 { assert ds[j].sequenceNumber < c; }
    } else if BlockedBelow(t, handles, n) {
      var j :| 0 <= j < |ds| && ds[j].sequenceNumber < n && !ds[j].acknowledged && ds[j].sequenceNumber !in handles;
      assert t'.delivered[j - k] == ds[j];
    }
  }

  /** Committing the acknowledged head. */
  lemma CommitKeeps(log: Log, r: Receiver, handles: set<int>, acked: set<int>, k: nat)
    requires PartitionInv(log, r, handles, acked) && k == AckedPrefix(r.tracker.delivered) && k > 0
    ensures var ds := r.tracker.delivered;
            PartitionInv(log, r.(tracker := Tracker(Some(ds[k - 1].sequenceNumber), ds[k..])), handles, acked)
  {
    HeadIsCovered(log, r, handles, acked, k);
    var t := r.tracker;
    var t' := Tracker(Some(t.delivered[k - 1].sequenceNumber), t.delivered[k..]);
    assert forall i :: 0 <= i < |t'.delivered| ==> t'.delivered[i] == t.delivered[i + k];
    forall n ensures (Past(t, n) || Tracks(t.delivered, n) ==> Past(t', n) || Tracks(t'.delivered, n))
             ensures Accounted(t, handles, n) ==> Accounted(t', handles, n) {
      CommitAccounts(t, handles, k, n);
    }
    forall i | r.next <= i < |log| ensures Ahead(t', log[i].sequenceNumber) {
      assert Ahead(t, log[i].sequenceNumber);
    }
  }

  /** acknowledge, and what it asks the store to record. */
  lemma AcknowledgeKeeps(log: Log, r: Receiver, handles: set<int>, acked: set<int>, n: int, recorded: bool)
    requires PartitionInv(log, r, handles, acked) && n in handles
    ensures PartitionInv(log, r.(tracker := Acknowledge(r.tracker, n, recorded)), handles, acked + {n})
    ensures Request(r.tracker, n).Some? ==> Covered(log, acked + {n}, Request(r.tracker, n).value)
  {
    if Past(r.tracker, n) {
    } else {
      MarkKeeps(log, r, handles, acked, n);
      var marked := r.(tracker := r.tracker.(delivered := Mark(r.tracker.delivered, n)));
      var k := AckedPrefix(marked.tracker.delivered);
      if k > 0 {
        HeadIsCovered(log, marked, handles, acked + {n}, k);
        CommitKeeps(log, marked, handles, acked + {n}, k);
      }
    }
  }

  // ----- the store and the file

  /** No recorded checkpoint covers an event that was not acknowledged. */
  ghost predicate Justified(c: Config, acked: seq<set<int>>, checkpoints: map<string, int>)
    requires |c.ids| == |c.logs| == |acked|
  {
    forall i :: 0 <= i < |c.ids| && c.ids[i] in checkpoints ==> Covered(c.logs[i], acked[i], checkpoints[c.ids[i]])
  }

  ghost predicate FileJustified(c: Config, acked: seq<set<int>>, f: File)
    requires |c.ids| == |c.logs| == |acked|
  {
    f.Checkpoints? ==> Justified(c, acked, f.sequences)
  }

  ghost predicate WorldInv(c: Config, w: World) {
    && Shaped(c, w)
    && (forall i :: 0 <= i < |c.logs| ==> PartitionInv(c.logs[i], w.session.receivers[i], w.session.handles[i], w.acked[i]))
    && Justified(c, w.acked, w.session.store.partitions)
    && FileJustified(c, w.acked, w.file)
  }

  lemma LoadJustified(c: Config, acked: seq<set<int>>, s: Store, f: File, readable: bool)
    requires |c.ids| == |c.logs| == |acked| && Justified(c, acked, s.partitions) && FileJustified(c, acked, f)
    ensures Justified(c, acked, Load(s, f, readable).0.partitions)
  {}

  lemma RecordJustified(c: Config, acked: seq<set<int>>, s: Store, f: File, readable: bool, i: nat, n: int, write: Write)
    requires ConfigOk(c) && |acked| == |c.logs| && i < |c.ids|
    requires Justified(c, acked, s.partitions) && FileJustified(c, acked, f) && Covered(c.logs[i], acked[i], n)
    ensures var (s', f', ok) := Record(s, f, readable, c.ids[i], n, write);
            Justified(c, acked, s'.partitions) && FileJustified(c, acked, f')
  {
    LoadJustified(c, acked, s, f, readable);
  }

  /** A fresh receiver starts right after the checkpoint. */
  lemma OpenedInv(log: Log, start: Option<int>, acked: set<int>)
    requires LogOk(log) && (start.Some? ==> Covered(log, acked, start.value))
    ensures PartitionInv(log, Opened(log, start), {}, acked)
  {
    var r := Opened(log, start);
    forall i | r.next <= i < |log| ensures Ahead(r.tracker, log[i].sequenceNumber) {
      assert log[r.next].sequenceNumber <= log[i].sequenceNumber;
    }
    forall i | 0 <= i < r.next ensures Accounted(r.tracker, {}, log[i].sequenceNumber) {
      assert Past(r.tracker, log[i].sequenceNumber);
    }
  }

  lemma {:induction false} OpenFromInv(c: Config, acked: seq<set<int>>, s: Store, f: File, readable: bool, i: nat)
    requires ConfigOk(c) && |acked| == |c.logs| && i <= |c.ids|
    requires Justified(c, acked, s.partitions) && FileJustified(c, acked, f)
    ensures var (s', rs) := OpenFrom(c, s, f, readable, i);
            && Justified(c, acked, s'.partitions)
            && forall k :: i <= k < |c.ids| ==> PartitionInv(c.logs[k], rs[k - i], {}, acked[k])
    decreases |c.ids| - i
  {
    if i < |c.ids| {
      var (s1, start) := StartPosition(s, f, readable, c.ids[i]);
      LoadJustified(c, acked, s, f, readable);
      OpenFromInv(c, acked, s1, f, readable, i + 1);
      OpenedInv(c.logs[i], start, acked[i]);
      var (s2, rest) := OpenFrom(c, s1, f, readable, i + 1);
      var (s', rs) := OpenFrom(c, s, f, readable, i);
      forall k | i <= k < |c.ids| ensures PartitionInv(c.logs[k], rs[k - i], {}, acked[k]) {
        if k > i { assert rs[k - i] == rest[k - (i + 1)]; }
      }
    }
  }

  lemma InvFits(log: Log, r: Receiver, handles: set<int>, acked: set<int>)
    requires PartitionInv(log, r, handles, acked)
    ensures r.next <= |log|
  {}

  lemma RestartInv(c: Config, w: World, readable: bool)
    requires ConfigOk(c) && |w.acked| == |c.logs| && FileJustified(c, w.acked, w.file)
    ensures WorldInv(c, w.(session := Restart(c, w.file, readable)))
  {
    hide OpenFrom, PartitionInv;
    OpenFromInv(c, w.acked, Store(c.durable, false, NO_CHECKPOINTS), w.file, readable, 0);
    var (store, rs) := OpenFrom(c, Store(c.durable, false, NO_CHECKPOINTS), w.file, readable, 0);
    forall i | 0 <= i < |c.logs| ensures PartitionInv(c.logs[i], rs[i], {}, w.acked[i]) && rs[i].next <= |c.logs[i]| {
      assert rs[i] == rs[i - 0];
      InvFits(c.logs[i], rs[i], {}, w.acked[i]);
    }
  }

  lemma ReceivedInv(c: Config, w: World, limit: int, polls: seq<Poll>)
    requires WorldInv(c, w) && |c.logs| > 0 && |polls| == |c.logs|
    ensures WorldInv(c, Received(c, w, limit, polls))
  {
    var s0 := Receiving(w.session.receivers, w.session.nextIndex, [], false);
    forall i | 0 <= i < |c.logs|
      ensures PartitionInv(c.logs[i], s0.receivers[i], w.session.handles[i] + Numbers([], i), w.acked[i])
    {
      assert w.session.handles[i] + Numbers([], i) == w.session.handles[i];
    }
    ReceiveKeeps(c.stream, c.logs, s0, 0, Limit(limit), polls, w.session.handles, w.acked);
  }

  /** What was justified stays so when more is acknowledged. */
  lemma JustifiedGrows(c: Config, acked: seq<set<int>>, i: nat, n: int, checkpoints: map<string, int>)
    requires |c.ids| == |c.logs| == |acked| && i < |acked| && Justified(c, acked, checkpoints)
    ensures Justified(c, acked[i := acked[i] + {n}], checkpoints)
  {}

  lemma AckedInv(c: Config, w: World, i: nat, n: int, readable: bool, write: Write)
    requires WorldInv(c, w) && i < |c.ids| && n in w.session.handles[i]
    ensures WorldInv(c, Acked(c, w, i, n, readable, write))
  {
    hide Acknowledge, Request, Record, PartitionInv, Justified, Covered;
    var r := w.session.receivers[i];
    var acked := w.acked[i := w.acked[i] + {n}];
    AcknowledgeKeeps(c.logs[i], r, w.session.handles[i], w.acked[i], n, true);
    AcknowledgeKeeps(c.logs[i], r, w.session.handles[i], w.acked[i], n, false);
    JustifiedGrows(c, w.acked, i, n, w.session.store.partitions);
    if w.file.Checkpoints? { JustifiedGrows(c, w.acked, i, n, w.file.sequences); }
    var request := Request(r.tracker, n);
    if request.Some? {
      RecordJustified(c, acked, w.session.store, w.file, readable, i, request.value, write);
    }
  }

  lemma NextInv(c: Config, w: World, step: Step)
    requires WorldInv(c, w)
    ensures WorldInv(c, Next(c, w, step))
  {
    match step
    case ReceiveStep(limit, polls) =>
      if |c.logs| > 0 && |polls| == |c.logs| { ReceivedInv(c, w, limit, polls); }
    case AckStep(i, n, readable, write) =>
      if i < |c.ids| && n in w.session.handles[i] { AckedInv(c, w, i, n, readable, write); }
    case RestartStep(readable) => RestartInv(c, w, readable);
  }

  // ----- runs

  ghost function RunSteps(c: Config, w: World, steps: seq<Step>): World
    requires WorldInv(c, w)
    ensures WorldInv(c, RunSteps(c, w, steps))
    decreases |steps|
  {
    if steps == [] then w
    else
      NextInv(c, w, steps[0]);
      RunSteps(c, Next(c, w, steps[0]), steps[1..])
  }

  /** The first process of a run, over a file whose checkpoints are justified (a missing file is). */
  function Start(c: Config, f: File, acked: seq<set<int>>, readable: bool): World
    requires |c.ids| == |c.logs|
  {
    World(f, Restart(c, f, readable), acked)
  }

  lemma StartInv(c: Config, f: File, acked: seq<set<int>>, readable: bool)
    requires ConfigOk(c) && |acked| == |c.logs| && FileJustified(c, acked, f)
    ensures WorldInv(c, Start(c, f, acked, readable))
  {
    RestartInv(c, World(f, Restart(c, f, readable), acked), readable);
  }

  /** At-least-once delivery: whatever happened before, no event at or below a checkpoint on disk is
      unacknowledged, so the next process starts at or before every unacknowledged event. */
  lemma RestartSkipsNothing(c: Config, f: File, acked: seq<set<int>>, readable: bool, steps: seq<Step>, reread: bool)
    requires ConfigOk(c) && |acked| == |c.logs| && FileJustified(c, acked, f)
    ensures WorldInv(c, Start(c, f, acked, readable))
    ensures var w := RunSteps(c, Start(c, f, acked, readable), steps);
            && FileJustified(c, w.acked, w.file)
            && forall i, k :: 0 <= i < |c.logs| && 0 <= k < |c.logs[i]| && c.logs[i][k].sequenceNumber !in w.acked[i] ==>
                 Restart(c, w.file, reread).receivers[i].next <= k
  {
    StartInv(c, f, acked, readable);
    var w := RunSteps(c, Start(c, f, acked, readable), steps);
    RestartInv(c, w, reread);
    forall i, k | 0 <= i < |c.logs| && 0 <= k < |c.logs[i]| && c.logs[i][k].sequenceNumber !in w.acked[i]
      ensures Restart(c, w.file, reread).receivers[i].next <= k
    {
      RestartAt(c, w.(session := Restart(c, w.file, reread)), reread, i, k);
    }
  }

  lemma RestartAt(c: Config, w: World, readable: bool, i: nat, k: nat)
    requires WorldInv(c, w) && w.session == Restart(c, w.file, readable) && i < |c.logs| && k < |c.logs[i]|
    requires c.logs[i][k].sequenceNumber !in w.acked[i]
    ensures w.session.receivers[i].next <= k
  {
    OpenFromStarts(c, Store(c.durable, false, NO_CHECKPOINTS), w.file, readable, 0, i);
    assert PartitionInv(c.logs[i], w.session.receivers[i], w.session.handles[i], w.acked[i]);
    var r := w.session.receivers[i];
    assert k < r.next ==> Accounted(r.tracker, w.session.handles[i], c.logs[i][k].sequenceNumber);
  }

  /** A fresh tracker has nothing delivered. */
  lemma {:induction false} OpenFromStarts(c: Config, s: Store, f: File, readable: bool, i: nat, k: nat)
    requires |c.ids| == |c.logs| && i <= k < |c.ids|
    ensures OpenFrom(c, s, f, readable, i).1[k - i].tracker.delivered == []
    decreases |c.ids| - i
  {
    if k > i {
      var (s1, start) := StartPosition(s, f, readable, c.ids[i]);
      OpenFromStarts(c, s1, f, readable, i + 1, k);
    }
  }

  // ----- a dropped message blocks its partition until a restart

  /** n is tracked, unacknowledged, and nobody holds its message. */
  predicate Dropped(t: Tracker, handles: set<int>, n: int) {
    n !in handles && exists k :: 0 <= k < |t.delivered| && t.delivered[k] == Delivered(n, false)
  }

  lemma DroppedAtAcknowledge(log: Log, r: Receiver, handles: set<int>, acked: set<int>, m: int, recorded: bool, n: int)
    requires PartitionInv(log, r, handles, acked) && m in handles && Dropped(r.tracker, handles, n)
    ensures Dropped(Acknowledge(r.tracker, m, recorded), handles, n)
    ensures Request(r.tracker, m).Some? ==> Request(r.tracker, m).value < n
  {
    var t := r.tracker;
    var k :| 0 <= k < |t.delivered| && t.delivered[k] == Delivered(n, false);
    if !Past(t, m) {
      MarkKeeps(log, r, handles, acked, m);
      assert Tracks(t.delivered, m);
      var j := Find(t.delivered, m, 0);
      var ds := Mark(t.delivered, m);
      assert ds == t.delivered[j := Delivered(m, true)] && j != k;
      assert ds[k] == Delivered(n, false);
      var p := AckedPrefix(ds);
      assert p <= k;
      if p > 0 { assert ds[p..][k - p] == ds[k]; assert ds[p - 1].sequenceNumber < ds[k].sequenceNumber; }
    }
  }

  lemma DroppedAtTrack(log: Log, r: Receiver, handles: set<int>, acked: set<int>, n: int)
    requires PartitionInv(log, r, handles, acked) && r.next < |log| && Dropped(r.tracker, handles, n)
    ensures var e := log[r.next].sequenceNumber;
            Dropped(Track(r.tracker, e), handles, n) && Dropped(Track(r.tracker, e), handles + {e}, n)
  {
    var e := log[r.next].sequenceNumber;
    TrackKeeps(log, r, handles, acked);
    var k :| 0 <= k < |r.tracker.delivered| && r.tracker.delivered[k] == Delivered(n, false);
    assert Track(r.tracker, e).delivered[k] == Delivered(n, false);
    assert Ahead(r.tracker, e);
  }

  lemma {:induction false} DroppedAtConsume(stream: string, log: Log, r: Receiver, handles: set<int>, acked: set<int>,
                                            i: nat, hi: nat, n: int)
    requires PartitionInv(log, r, handles, acked) && r.next <= hi <= |log| && Dropped(r.tracker, handles, n)
    ensures var (t, ms, ok) := Consume(stream, log, r.tracker, i, r.next, hi);
            Dropped(t, handles + Numbers(ms, i), n)
    decreases hi - r.next
  {
    assert handles + Numbers([], i) == handles;
    if r.next < hi {
      var e := log[r.next];
      var r' := Receiver(r.next + 1, Track(r.tracker, e.sequenceNumber));
      TrackKeeps(log, r, handles, acked);
      DroppedAtTrack(log, r, handles, acked, n);
      if e.body.Some? {
        DroppedAtConsume(stream, log, r', handles + {e.sequenceNumber}, acked, i, hi, n);
        var (t, rest, ok) := Consume(stream, log, r'.tracker, i, r'.next, hi);
        NumbersCons(ToMessage(stream, e, i), rest, i);
        assert handles + {e.sequenceNumber} + Numbers(rest, i) == handles + ({e.sequenceNumber} + Numbers(rest, i));
      }
    }
  }

  lemma {:induction false} DroppedAtReceive(stream: string, logs: seq<Log>, s: Receiving, checked: nat, limit: nat, polls: seq<Poll>,
                                            handles: seq<set<int>>, acked: seq<set<int>>, i: nat, n: int)
    requires |logs| > 0 && Fits(s.receivers, logs) && |s.messages| <= limit && checked <= |logs| == |polls|
    requires |handles| == |acked| == |logs| && ReceivingInv(logs, s, handles, acked) && i < |logs|
    requires Dropped(s.receivers[i].tracker, handles[i] + Numbers(s.messages, i), n)
    ensures var s' := ReceiveFrom(stream, logs, s, checked, limit, polls);
            Dropped(s'.receivers[i].tracker, handles[i] + Numbers(s'.messages, i), n)
    decreases |logs| - checked
  {
    if !(s.failed || checked == |logs| || |s.messages| >= limit) {
      PollOneKeeps(stream, logs, s, limit, polls[checked], handles, acked);
      DroppedAtPoll(stream, logs, s, limit, polls[checked], handles, acked, i, n);
      DroppedAtReceive(stream, logs, PollOne(stream, logs, s, limit, polls[checked]), checked + 1, limit, polls, handles, acked, i, n);
    }
  }

  lemma DroppedAtPoll(stream: string, logs: seq<Log>, s: Receiving, limit: nat, poll: Poll,
                      handles: seq<set<int>>, acked: seq<set<int>>, i: nat, n: int)
    requires |logs| > 0 && Fits(s.receivers, logs) && |s.messages| <= limit && !s.failed
    requires |handles| == |acked| == |logs| && ReceivingInv(logs, s, handles, acked) && i < |logs|
    requires Dropped(s.receivers[i].tracker, handles[i] + Numbers(s.messages, i), n)
    ensures var s' := PollOne(stream, logs, s, limit, poll);
            Dropped(s'.receivers[i].tracker, handles[i] + Numbers(s'.messages, i), n)
  {
    var p := s.nextIndex % |logs|;
    var r := s.receivers[p];
    if !poll.Fault? {
      var hi := r.next + Yield(logs[p], r.next, limit - |s.messages|, poll);
      var (t, ms, ok) := Consume(stream, logs[p], r.tracker, p, r.next, hi);
      NumbersAppend(s.messages, ms, i);
      var h := handles[i] + Numbers(s.messages, i);
      assert h + Numbers(ms, i) == handles[i] + Numbers(s.messages + ms, i);
      if i == p {
        DroppedAtConsume(stream, logs[p], r, h, acked[p], p, hi, n);
      } else {
        ConsumePartition(stream, logs[p], r.tracker, p, r.next, hi, i);
      }
    }
  }

  /** Until a restart, a dropped message stays dropped, and the session commits nothing at or
      above it on that partition. */
  lemma DroppedBlocksUntilRestart(c: Config, w: World, step: Step, i: nat, n: int)
    requires WorldInv(c, w) && i < |c.logs| && !step.RestartStep?
    requires Dropped(w.session.receivers[i].tracker, w.session.handles[i], n)
    ensures WorldInv(c, Next(c, w, step))
    ensures var s' := Next(c, w, step).session; Dropped(s'.receivers[i].tracker, s'.handles[i], n)
    ensures step.AckStep? && step.partition == i && step.n in w.session.handles[i] ==>
      var request := Request(w.session.receivers[i].tracker, step.n); request.Some? ==> request.value < n
  {
    hide ReceiveFrom, Acknowledge, Record, Justified, FileJustified, PartitionInv;
    NextInv(c, w, step);
    match step
    case ReceiveStep(limit, polls) =>
      if |c.logs| > 0 && |polls| == |c.logs| {
        var s0 := Receiving(w.session.receivers, w.session.nextIndex, [], false);
        forall j | 0 <= j < |c.logs| ensures w.session.handles[j] + Numbers([], j) == w.session.handles[j] {}
        DroppedAtReceive(c.stream, c.logs, s0, 0, Limit(limit), polls, w.session.handles, w.acked, i, n);
      }
    case AckStep(p, m, readable, write) =>
      if p < |c.ids| && m in w.session.handles[p] && p == i {
        DroppedAtAcknowledge(c.logs[i], w.session.receivers[i], w.session.handles[i], w.acked[i], m, true, n);
        DroppedAtAcknowledge(c.logs[i], w.session.receivers[i], w.session.handles[i], w.acked[i], m, false, n);
      }
  }

  // ----- what a failed Receive leaves, over a whole session

  /** From r0 on to r, fetching has only added unacknowledged entries for events from r0.next on, and every fetched
      event has one of them at or below it. */
  ghost predicate Grown(log: Log, r0: Receiver, r: Receiver) {
    var d0, d := r0.tracker.delivered, r.tracker.delivered;
    && r0.next <= r.next <= |log| && r.tracker.committed == r0.tracker.committed
    && d0 <= d
    && (forall j :: |d0| <= j < |d| ==>
          !d[j].acknowledged && r0.next < |log| && log[r0.next].sequenceNumber <= d[j].sequenceNumber)
    && (forall k :: r0.next <= k < r.next ==> Entered(d, |d0|, log[k].sequenceNumber))
  }

  /** Some entry from index lo on is at or below n. */
  predicate Entered(d: seq<Delivered>, lo: nat, n: int) {
    exists j :: lo <= j < |d| && d[j].sequenceNumber <= n
  }

  lemma GrownCompose(log: Log, a: Receiver, b: Receiver, c: Receiver)
    requires LogOk(log) && Grown(log, a, b) && Grown(log, b, c)
    ensures Grown(log, a, c)
  {
    var d0, d, d' := a.tracker.delivered, b.tracker.delivered, c.tracker.delivered;
    forall j | |d0| <= j < |d'|
      ensures !d'[j].acknowledged && a.next < |log| && log[a.next].sequenceNumber <= d'[j].sequenceNumber
    {
      if j < |d| {
        assert d'[j] == d[j];
      } else if a.next < b.next {
        assert log[a.next].sequenceNumber <= log[b.next].sequenceNumber;
      }
    }
    forall k | a.next <= k < c.next ensures Entered(d', |d0|, log[k].sequenceNumber) {
      if k < b.next {
        var j :| |d0| <= j < |d| && d[j].sequenceNumber <= log[k].sequenceNumber;
        assert d'[j] == d[j];
      } else {
        var j :| |d| <= j < |d'| && d'[j].sequenceNumber <= log[k].sequenceNumber;
      }
    }
  }

  lemma {:induction false} ConsumeGrows(stream: string, log: Log, r: Receiver, handles: set<int>, acked: set<int>,
                                        i: nat, hi: nat)
    requires PartitionInv(log, r, handles, acked) && r.next <= hi <= |log|
    ensures Grown(log, r, Receiver(hi, Consume(stream, log, r.tracker, i, r.next, hi).0))
    decreases hi - r.next
  {
    if r.next < hi {
      var e := log[r.next];
      var r' := Receiver(r.next + 1, Track(r.tracker, e.sequenceNumber));
      TrackKeeps(log, r, handles, acked);
      TrackGrows(log, r, hi);
      if e.body.Some? {
        ConsumeGrows(stream, log, r', handles, acked, i, hi);
        GrownCompose(log, r, r', Receiver(hi, Consume(stream, log, r'.tracker, i, r'.next, hi).0));
      }
    }
  }

  /** The entry of one event stands below every later event, tracked or not. */
  lemma TrackGrows(log: Log, r: Receiver, hi: nat)
    requires LogOk(log) && r.next < hi <= |log|
    requires var n := log[r.next].sequenceNumber; var t := Track(r.tracker, n);
      t.committed == r.tracker.committed && t.delivered == r.tracker.delivered + [Delivered(n, false)]
    ensures var t := Track(r.tracker, log[r.next].sequenceNumber);
      Grown(log, r, Receiver(r.next + 1, t)) && Grown(log, r, Receiver(hi, t))
  {
    var d := Track(r.tracker, log[r.next].sequenceNumber).delivered;
    forall k | r.next <= k < hi ensures Entered(d, |r.tracker.delivered|, log[k].sequenceNumber) {
      assert d[|r.tracker.delivered|].sequenceNumber <= log[k].sequenceNumber;
    }
  }

  lemma {:induction false} ReceiveGrows(stream: string, logs: seq<Log>, s: Receiving, checked: nat, limit: nat, polls: seq<Poll>,
                                        handles: seq<set<int>>, acked: seq<set<int>>, i: nat)
    requires |logs| > 0 && Fits(s.receivers, logs) && |s.messages| <= limit && checked <= |logs| == |polls|
    requires |handles| == |acked| == |logs| && ReceivingInv(logs, s, handles, acked) && i < |logs|
    ensures Grown(logs[i], s.receivers[i], ReceiveFrom(stream, logs, s, checked, limit, polls).receivers[i])
    decreases |logs| - checked
  {
    if !(s.failed || checked == |logs| || |s.messages| >= limit) {
      var m := PollOne(stream, logs, s, limit, polls[checked]);
      PollOneKeeps(stream, logs, s, limit, polls[checked], handles, acked);
      PollOneGrows(stream, logs, s, limit, polls[checked], handles, acked, i);
      ReceiveGrows(stream, logs, m, checked + 1, limit, polls, handles, acked, i);
      GrownCompose(logs[i], s.receivers[i], m.receivers[i], ReceiveFrom(stream, logs, m, checked + 1, limit, polls).receivers[i]);
    }
  }

  lemma PollOneGrows(stream: string, logs: seq<Log>, s: Receiving, limit: nat, poll: Poll,
                     handles: seq<set<int>>, acked: seq<set<int>>, i: nat)
    requires |logs| > 0 && Fits(s.receivers, logs) && |s.messages| <= limit && !s.failed && i < |logs|
    requires |handles| == |acked| == |logs| && ReceivingInv(logs, s, handles, acked)
    ensures Grown(logs[i], s.receivers[i], PollOne(stream, logs, s, limit, poll).receivers[i])
  {
    var r := s.receivers[i];
    var h := handles[i] + Numbers(s.messages, i);
    assert PartitionInv(logs[i], r, h, acked[i]);
    if i == s.nextIndex % |logs| && !poll.Fault? {
      ConsumeGrows(stream, logs[i], r, h, acked[i], i, r.next + Yield(logs[i], r.next, limit - |s.messages|, poll));
    }
  }

  /** n is dropped, or lies above a number that is. */
  predicate Stalled(t: Tracker, handles: set<int>, n: int) {
    exists k :: 0 <= k < |t.delivered| && t.delivered[k].sequenceNumber <= n && Dropped(t, handles, t.delivered[k].sequenceNumber)
  }

  predicate ReceiveFails(c: Config, w: World, limit: int, polls: seq<Poll>)
    requires |c.logs| > 0 && |polls| == |c.logs| && Fits(w.session.receivers, c.logs)
  {
    ReceiveFrom(c.stream, c.logs, Receiving(w.session.receivers, w.session.nextIndex, [], false), 0, Limit(limit), polls).failed
  }

  lemma FailedReceiveGrows(c: Config, w: World, limit: int, polls: seq<Poll>, i: nat)
    requires WorldInv(c, w) && |polls| == |c.logs| && i < |c.logs| && ReceiveFails(c, w, limit, polls)
    ensures Received(c, w, limit, polls).session.handles[i] == w.session.handles[i]
    ensures Grown(c.logs[i], w.session.receivers[i], Received(c, w, limit, polls).session.receivers[i])
  {
    hide ReceiveFrom;
    var s0 := Receiving(w.session.receivers, w.session.nextIndex, [], false);
    forall j | 0 <= j < |c.logs| ensures w.session.handles[j] + Numbers([], j) == w.session.handles[j] {}
    ReceiveGrows(c.stream, c.logs, s0, 0, Limit(limit), polls, w.session.handles, w.acked, i);
  }

  /** A Receive that fails drops what it tracked and stalls all it fetched, on every partition it polled. */
  lemma FailedReceiveDrops(c: Config, w: World, limit: int, polls: seq<Poll>, i: nat)
    requires WorldInv(c, w) && |polls| == |c.logs| && i < |c.logs| && ReceiveFails(c, w, limit, polls)
    ensures var r, r', handles := w.session.receivers[i], Received(c, w, limit, polls).session.receivers[i], w.session.handles[i];
      && Received(c, w, limit, polls).session.handles[i] == handles
      && r.tracker.delivered <= r'.tracker.delivered
      && (forall j :: |r.tracker.delivered| <= j < |r'.tracker.delivered| ==>
            Dropped(r'.tracker, handles, r'.tracker.delivered[j].sequenceNumber))
      && (forall k :: r.next <= k < r'.next ==> Stalled(r'.tracker, handles, c.logs[i][k].sequenceNumber))
  {
    FailedReceiveGrows(c, w, limit, polls, i);
    var r' := Received(c, w, limit, polls).session.receivers[i];
    GrownDrops(c.logs[i], w.session.receivers[i], r', w.session.handles[i], w.acked[i]);
  }

  lemma GrownDrops(log: Log, r: Receiver, r': Receiver, handles: set<int>, acked: set<int>)
    requires PartitionInv(log, r, handles, acked) && Grown(log, r, r')
    ensures var d, d' := r.tracker.delivered, r'.tracker.delivered;
      && (forall j :: |d| <= j < |d'| ==> Dropped(r'.tracker, handles, d'[j].sequenceNumber))
      && (forall k :: r.next <= k < r'.next ==> Stalled(r'.tracker, handles, log[k].sequenceNumber))
  {
    var d, d' := r.tracker.delivered, r'.tracker.delivered;
    forall j | |d| <= j < |d'| ensures Dropped(r'.tracker, handles, d'[j].sequenceNumber) {
      assert d'[j] == Delivered(d'[j].sequenceNumber, false);
    }
    forall k | r.next <= k < r'.next ensures Stalled(r'.tracker, handles, log[k].sequenceNumber) {
      var j :| |d| <= j < |d'| && d'[j].sequenceNumber <= log[k].sequenceNumber;
      assert Dropped(r'.tracker, handles, d'[j].sequenceNumber);
    }
  }

  predicate NoRestart(steps: seq<Step>) {
    forall k :: 0 <= k < |steps| ==> !steps[k].RestartStep?
  }

  /** Neither the store's memory nor the file has a checkpoint of the partition at or above n. */
  predicate Below(c: Config, w: World, i: nat, n: int)
    requires i < |c.ids|
  {
    && (c.ids[i] in w.session.store.partitions ==> w.session.store.partitions[c.ids[i]] < n)
    && (w.file.Checkpoints? && c.ids[i] in w.file.sequences ==> w.file.sequences[c.ids[i]] < n)
  }

  /** A step other than a restart neither acknowledges a dropped number nor records one at or above it. */
  lemma DroppedStep(c: Config, w: World, step: Step, i: nat, n: int)
    requires WorldInv(c, w) && i < |c.logs| && !step.RestartStep?
    requires Dropped(w.session.receivers[i].tracker, w.session.handles[i], n)
    ensures WorldInv(c, Next(c, w, step)) && (n in Next(c, w, step).acked[i] <==> n in w.acked[i])
    ensures Below(c, w, i, n) ==> Below(c, Next(c, w, step), i, n)
  {
    hide PartitionInv, ReceiveFrom, Record, Acknowledge, Justified, FileJustified;
    DroppedBlocksUntilRestart(c, w, step, i, n);
    if step.AckStep? && step.partition < |c.ids| && step.n in w.session.handles[step.partition] {
      var request := Request(w.session.receivers[step.partition].tracker, step.n);
      if request.Some? { RecordBelow(c, w, step.partition, request.value, step.readable, step.write, i, n); }
    }
  }

  lemma RecordBelow(c: Config, w: World, p: nat, m: int, readable: bool, write: Write, i: nat, n: int)
    requires ConfigOk(c) && p < |c.ids| && i < |c.ids| && (p == i ==> m < n)
    ensures var (store, file, ok) := Record(w.session.store, w.file, readable, c.ids[p], m, write);
      Below(c, w, i, n) ==> Below(c, w.(file := file, session := w.session.(store := store)), i, n)
  {
    assert p != i ==> c.ids[p] != c.ids[i];
  }

  /** For the rest of the session, however long, a dropped message stays dropped and unacknowledged, and neither the
      tracker nor the store ever commits its number or a higher one on that partition. */
  lemma {:induction false} DroppedForTheSession(c: Config, w: World, steps: seq<Step>, i: nat, n: int)
    requires WorldInv(c, w) && i < |c.logs| && NoRestart(steps)
    requires Dropped(w.session.receivers[i].tracker, w.session.handles[i], n)
    ensures var w' := RunSteps(c, w, steps); var t := w'.session.receivers[i].tracker;
      && Dropped(t, w'.session.handles[i], n) && !Past(t, n)
      && (n in w'.acked[i] <==> n in w.acked[i])
      && (Below(c, w, i, n) ==> Below(c, w', i, n))
    decreases |steps|
  {
    if steps == [] {
      assert PartitionInv(c.logs[i], w.session.receivers[i], w.session.handles[i], w.acked[i]);
    } else {
      DroppedBlocksUntilRestart(c, w, steps[0], i, n);
      DroppedStep(c, w, steps[0], i, n);
      DroppedForTheSession(c, Next(c, w, steps[0]), steps[1..], i, n);
    }
  }

  /** Until the next restart, nothing a failed Receive fetched is ever committed: not the messages it had decoded and
      threw away, not the event that did not decode, and not the rest of its batch. Nor does any checkpoint in memory or
      on disk reach them, if none was past the receiver's place before. */
  lemma FailedReceiveCommitsNothing(c: Config, w: World, limit: int, polls: seq<Poll>, steps: seq<Step>, i: nat, k: nat)
    requires WorldInv(c, w) && |polls| == |c.logs| && i < |c.logs| && ReceiveFails(c, w, limit, polls) && NoRestart(steps)
    requires w.session.receivers[i].next <= k < Received(c, w, limit, polls).session.receivers[i].next <= |c.logs[i]|
    ensures WorldInv(c, Received(c, w, limit, polls))
    ensures var w' := RunSteps(c, Received(c, w, limit, polls), steps); var n := c.logs[i][k].sequenceNumber;
      && !Past(w'.session.receivers[i].tracker, n)
      && (Below(c, w, i, c.logs[i][w.session.receivers[i].next].sequenceNumber) ==> Below(c, w', i, n))
  {
    hide RunSteps, ReceiveFrom;
    ReceivedInv(c, w, limit, polls);
    FailedReceiveGrows(c, w, limit, polls, i);
    FailedReceiveDrops(c, w, limit, polls, i);
    var w1 := Received(c, w, limit, polls);
    var d, d' := w.session.receivers[i].tracker.delivered, w1.session.receivers[i].tracker.delivered;
    assert Entered(d', |d|, c.logs[i][k].sequenceNumber);
    var j :| |d| <= j < |d'| && d'[j].sequenceNumber <= c.logs[i][k].sequenceNumber;
    DroppedForTheSession(c, w1, steps, i, d'[j].sequenceNumber);
  }

  // ----- events that never decode

  /** Nobody holds or has acknowledged number n of partition i. */
  predicate Unsent(w: World, i: nat, n: int)
    requires i < |w.session.handles| && i < |w.acked|
  {
    n !in w.session.handles[i] && n !in w.acked[i]
  }

  lemma {:induction false} UndecodableHasNoMessage(stream: string, log: Log, t: Tracker, p: nat, lo: nat, hi: nat, k: nat, i: nat)
    requires LogOk(log) && lo <= hi <= |log| && k < |log| && log[k].body.None?
    ensures log[k].sequenceNumber !in Numbers(Consume(stream, log, t, p, lo, hi).1, i)
    decreases hi - lo
  {
    if lo < hi && log[lo].body.Some? {
      UndecodableHasNoMessage(stream, log, Track(t, log[lo].sequenceNumber), p, lo + 1, hi, k, i);
      var rest := Consume(stream, log, Track(t, log[lo].sequenceNumber), p, lo + 1, hi).1;
      NumbersAppend([ToMessage(stream, log[lo], p)], rest, i);
      assert log[lo].sequenceNumber != log[k].sequenceNumber;
    }
  }

  lemma {:induction false} ReceiveSkips(stream: string, logs: seq<Log>, s: Receiving, checked: nat, limit: nat, polls: seq<Poll>,
                                        i: nat, k: nat)
    requires |logs| > 0 && Fits(s.receivers, logs) && |s.messages| <= limit && checked <= |logs| == |polls|
    requires i < |logs| && LogOk(logs[i]) && k < |logs[i]| && logs[i][k].body.None?
    requires logs[i][k].sequenceNumber !in Numbers(s.messages, i)
    ensures logs[i][k].sequenceNumber !in Numbers(ReceiveFrom(stream, logs, s, checked, limit, polls).messages, i)
    decreases |logs| - checked
  {
    if !(s.failed || checked == |logs| || |s.messages| >= limit) {
      var p := s.nextIndex % |logs|;
      var r := s.receivers[p];
      var m := PollOne(stream, logs, s, limit, polls[checked]);
      if !polls[checked].Fault? {
        var hi := r.next + Yield(logs[p], r.next, limit - |s.messages|, polls[checked]);
        NumbersAppend(s.messages, Consume(stream, logs[p], r.tracker, p, r.next, hi).1, i);
        if p == i {
          UndecodableHasNoMessage(stream, logs[i], r.tracker, i, r.next, hi, k, i);
        } else {
          ConsumePartition(stream, logs[p], r.tracker, p, r.next, hi, i);
        }
      }
      ReceiveSkips(stream, logs, m, checked + 1, limit, polls, i, k);
    }
  }

  lemma UnsentStep(c: Config, w: World, step: Step, i: nat, k: nat)
    requires WorldInv(c, w) && i < |c.logs| && k < |c.logs[i]| && c.logs[i][k].body.None?
    requires Unsent(w, i, c.logs[i][k].sequenceNumber)
    ensures WorldInv(c, Next(c, w, step)) && Unsent(Next(c, w, step), i, c.logs[i][k].sequenceNumber)
  {
    NextInv(c, w, step);
    if step.ReceiveStep? && |step.polls| == |c.logs| {
      var s0 := Receiving(w.session.receivers, w.session.nextIndex, [], false);
      ReceiveSkips(c.stream, c.logs, s0, 0, Limit(step.limit), step.polls, i, k);
    }
  }

  lemma {:induction false} UnsentRun(c: Config, w: World, steps: seq<Step>, i: nat, k: nat)
    requires WorldInv(c, w) && i < |c.logs| && k < |c.logs[i]| && c.logs[i][k].body.None?
    requires Unsent(w, i, c.logs[i][k].sequenceNumber)
    ensures Unsent(RunSteps(c, w, steps), i, c.logs[i][k].sequenceNumber)
    decreases |steps|
  {
    if steps != [] {
      UnsentStep(c, w, steps[0], i, k);
      UnsentRun(c, Next(c, w, steps[0]), steps[1..], i, k);
    }
  }

  /** An event that does not decode is never acknowledged and never passed: in every run, through any number of
      restarts, every checkpoint of its partition stays below it. */
  lemma UndecodableIsNeverPassed(c: Config, f: File, acked: seq<set<int>>, readable: bool, steps: seq<Step>, i: nat, k: nat)
    requires ConfigOk(c) && |acked| == |c.logs| && FileJustified(c, acked, f)
    requires i < |c.logs| && k < |c.logs[i]| && c.logs[i][k].body.None? && c.logs[i][k].sequenceNumber !in acked[i]
    ensures WorldInv(c, Start(c, f, acked, readable))
    ensures var w := RunSteps(c, Start(c, f, acked, readable), steps);
      c.logs[i][k].sequenceNumber !in w.acked[i] && Below(c, w, i, c.logs[i][k].sequenceNumber)
  {
    StartInv(c, f, acked, readable);
    UnsentRun(c, Start(c, f, acked, readable), steps, i, k);
  }

  // ----- does the file ever go backwards?

  /** Every checkpoint of `a` is still there in `b`, at the same place or further on. */
  predicate NoFurther(a: File, b: File) {
    a.Checkpoints? ==> b.Checkpoints? && forall id :: id in a.sequences ==> id in b.sequences && a.sequences[id] <= b.sequences[id]
  }

  /** The store has read the file, and its memory is not behind it. */
  predicate Caught(s: Store, f: File) {
    s.durable ==> s.loaded && NoFurther(f, Checkpoints(s.partitions)) && !f.Malformed?
  }

  lemma RecordForward(s: Store, f: File, readable: bool, id: string, n: int, write: Write)
    requires Caught(s, f)
    ensures var (s', f', ok) := Record(s, f, readable, id, n, write);
            Caught(s', f') && NoFurther(f, f')
  {}

  lemma {:induction false} OpenFromCaught(c: Config, s: Store, f: File, i: nat)
    requires |c.ids| == |c.logs| && i <= |c.ids| && !f.Malformed?
    requires s.durable == c.durable && (Caught(s, f) || (s == Store(c.durable, false, NO_CHECKPOINTS) && i < |c.ids|))
    ensures Caught(OpenFrom(c, s, f, true, i).0, f)
    decreases |c.ids| - i
  {
    if i < |c.ids| {
      OpenFromCaught(c, StartPosition(s, f, true, c.ids[i]).0, f, i + 1);
    }
  }

  ghost predicate CaughtUp(c: Config, w: World) {
    w.session.store.durable == c.durable && !w.file.Malformed? && Caught(w.session.store, w.file)
  }

  lemma StepForward(c: Config, w: World, step: Step)
    requires WorldInv(c, w) && |c.ids| > 0 && CaughtUp(c, w) && (step.RestartStep? ==> step.readable)
    ensures CaughtUp(c, Next(c, w, step)) && NoFurther(w.file, Next(c, w, step).file)
  {
    match step {
      case ReceiveStep(limit, polls) =>
      case AckStep(i, n, readable, write) =>
        if i < |c.ids| && n in w.session.handles[i] && Request(w.session.receivers[i].tracker, n).Some? {
          RecordForward(w.session.store, w.file, readable, c.ids[i], Request(w.session.receivers[i].tracker, n).value, write);
        }
      case RestartStep(readable) =>
        OpenFromCaught(c, Store(c.durable, false, NO_CHECKPOINTS), w.file, 0);
        OpenFromDurable(c, Store(c.durable, false, NO_CHECKPOINTS), w.file, readable, 0);
    }
  }

  /** Once a session has read the file, no step of any run moves a checkpoint on disk back, as long
      as every restart can read the file too. */
  lemma {:induction false} DiskNeverGoesBack(c: Config, w: World, steps: seq<Step>)
    requires WorldInv(c, w) && |c.ids| > 0 && CaughtUp(c, w)
    requires forall k :: 0 <= k < |steps| && steps[k].RestartStep? ==> steps[k].readable
    ensures NoFurther(w.file, RunSteps(c, w, steps).file)
    decreases |steps|
  {
    if steps != [] {
      NextInv(c, w, steps[0]);
      StepForward(c, w, steps[0]);
      DiskNeverGoesBack(c, Next(c, w, steps[0]), steps[1..]);
    }
  }

  lemma {:induction false} OpenFromDurable(c: Config, s: Store, f: File, readable: bool, i: nat)
    requires |c.ids| == |c.logs| && i <= |c.ids|
    ensures OpenFrom(c, s, f, readable, i).0.durable == s.durable
    decreases |c.ids| - i
  {
    if i < |c.ids| { OpenFromDurable(c, StartPosition(s, f, readable, c.ids[i]).0, f, readable, i + 1); }
  }

  /** When the first read fails, the store goes on as an empty one: the next successful record
      erases every other partition's checkpoint from the file. */
  lemma FailedLoadForgetsTheRest(f: File, id: string, first: string, n: int, readable: bool, write: Write)
    requires f.Checkpoints? && write.renamed
    ensures var (s, start) := StartPosition(Store(true, false, NO_CHECKPOINTS), f, false, first);
            var (s', f', ok) := Record(s, f, readable, id, n, write);
            && start == None
            && f' == Checkpoints(map[id := n])
            && (NoFurther(f, f') <==> forall other :: other in f.sequences ==> other == id && f.sequences[id] <= n)
  {}
}
