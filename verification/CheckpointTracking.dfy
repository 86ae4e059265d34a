/** The acknowledged-prefix tracker of one Event Hubs partition and the checkpoint file store,
    as values. EventConsumer.dfy holds the classes that compute these functions. */
module CheckpointTracking {
  import opened Wrappers

  datatype Delivered = Delivered(sequenceNumber: int, acknowledged: bool)

  /** azurePartitionCheckpointTracker; `committed` is committedSeq when committedSet holds. */
  datatype Tracker = Tracker(committed: Option<int>, delivered: seq<Delivered>)

  /** At or below the committed sequence number. */
  predicate Past(t: Tracker, n: int) {
    t.committed.Some? && n <= t.committed.value
  }

  predicate Tracks(ds: seq<Delivered>, n: int) {
    exists k :: 0 <= k < |ds| && ds[k].sequenceNumber == n
  }

  function Track(t: Tracker, n: int): Tracker {
    if Past(t, n) || Tracks(t.delivered, n) then t
    else t.(delivered := t.delivered + [Delivered(n, false)])
  }

  /** The index of the first entry for n at or after i, or the length. */
  function Find(ds: seq<Delivered>, n: int, i: nat): (r: nat)
    requires i <= |ds|
    ensures i <= r <= |ds|
    ensures forall k :: i <= k < r ==> ds[k].sequenceNumber != n
    ensures r < |ds| ==> ds[r].sequenceNumber == n
    decreases |ds| - i
  {
    if i == |ds| || ds[i].sequenceNumber == n then i else Find(ds, n, i + 1)
  }

  /** Flags the first entry for n, or appends a flagged one when there is none. */
  function Mark(ds: seq<Delivered>, n: int): seq<Delivered> {
    var i := Find(ds, n, 0);
    if i < |ds| then ds[i := Delivered(n, true)] else ds + [Delivered(n, true)]
  }

  function AckedFrom(ds: seq<Delivered>, i: nat): (r: nat)
    requires i <= |ds|
    ensures i <= r <= |ds|
    ensures forall k :: i <= k < r ==> ds[k].acknowledged
    ensures r < |ds| ==> !ds[r].acknowledged
    decreases |ds| - i
  {
    if i == |ds| || !ds[i].acknowledged then i else AckedFrom(ds, i + 1)
  }

  /** acknowledgedPrefixLocked: the length of the acknowledged head. */
  function AckedPrefix(ds: seq<Delivered>): nat {
    AckedFrom(ds, 0)
  }

  /** What acknowledge asks the store to record, if anything. */
  function Request(t: Tracker, n: int): Option<int> {
    if Past(t, n) then None
    else
      var ds := Mark(t.delivered, n);
      var k := AckedPrefix(ds);
      if k == 0 then None else Some(ds[k - 1].sequenceNumber)
  }

  /** acknowledge, given whether the store accepted the requested record. */
  function Acknowledge(t: Tracker, n: int, recorded: bool): Tracker {
    if Past(t, n) then t
    else
      var ds := Mark(t.delivered, n);
      var k := AckedPrefix(ds);
      if k == 0 || !recorded then t.(delivered := ds)
      else Tracker(Some(ds[k - 1].sequenceNumber), ds[k..])
  }

  // ----- the checkpoint file and its store

  /** The file on disk: absent, not a checkpoint document, or one sequence number a partition. */
  datatype File = Missing | Malformed | Checkpoints(sequences: map<string, int>)

  datatype Store = Store(durable: bool, loaded: bool, partitions: map<string, int>)

  /** How one attempt to replace the file ends: the rename happened or not, and what was reported. */
  datatype Write = Write(renamed: bool, reported: bool)

  const NO_CHECKPOINTS: map<string, int> := map[]

  /** loadLocked: the store counts as loaded before the file is read. */
  function Load(s: Store, f: File, readable: bool): (Store, bool) {
    if s.loaded then (s, true)
    else
      var empty := s.(loaded := true, partitions := NO_CHECKPOINTS);
      if !s.durable || f.Missing? then (empty, true)
      else if !readable || f.Malformed? then (empty, false)
      else (empty.(partitions := f.sequences), true)
  }

  /** startPosition: None is Earliest, Some(n) is "after n". */
  function StartPosition(s: Store, f: File, readable: bool, id: string): (Store, Option<int>) {
    var (loaded, ok) := Load(s, f, readable);
    (loaded, if ok && id in loaded.partitions then Some(loaded.partitions[id]) else None)
  }

  /** persistLocked: temporary file, then rename. */
  function Persist(s: Store, f: File, w: Write): (File, bool) {
    if !s.durable then (f, true)
    else (if w.renamed then Checkpoints(s.partitions) else f, w.reported)
  }

  /** record: memory first, then the file. */
  function Record(s: Store, f: File, readable: bool, id: string, n: int, w: Write): (Store, File, bool) {
    var (loaded, ok) := Load(s, f, readable);
    if !ok then (loaded, f, false)
    else if id in loaded.partitions && n <= loaded.partitions[id] then (loaded, f, true)
    else
      var updated := loaded.(partitions := loaded.partitions[id := n]);
      var (f', stored) := Persist(updated, f, w);
      (updated, f', stored)
  }

  // ----- the tracker is a function of what was tracked, what was acknowledged, and what was stored

  predicate Increasing(ns: seq<int>) {
    forall i, j :: 0 <= i < j < |ns| ==> ns[i] < ns[j]
  }

  predicate Above(base: Option<int>, ns: seq<int>) {
    base.Some? ==> forall i :: 0 <= i < |ns| ==> base.value < ns[i]
  }

  function SettledFrom(tracked: seq<int>, acks: set<int>, i: nat): (r: nat)
    requires i <= |tracked|
    ensures i <= r <= |tracked|
    ensures forall k :: i <= k < r ==> tracked[k] in acks
    ensures r < |tracked| ==> tracked[r] !in acks
    decreases |tracked| - i
  {
    if i == |tracked| || tracked[i] !in acks then i else SettledFrom(tracked, acks, i + 1)
  }

  /** The length of the longest prefix of `tracked` that is wholly acknowledged. */
  function Settled(tracked: seq<int>, acks: set<int>): nat {
    SettledFrom(tracked, acks, 0)
  }

  /** The tracker that started at `base`, tracked `tracked`, had `acks` acknowledged, and has
      stored the first `stored` of them. */
  function Form(base: Option<int>, tracked: seq<int>, acks: set<int>, stored: nat): Tracker
    requires stored <= |tracked|
  {
    Tracker(if stored == 0 then base else Some(tracked[stored - 1]),
            seq(|tracked| - stored, i requires 0 <= i < |tracked| - stored =>
              Delivered(tracked[stored + i], tracked[stored + i] in acks)))
  }

  /** x is among the stored numbers. */
  predicate Holds(tracked: seq<int>, stored: nat, x: int) {
    exists i :: 0 <= i < stored && i < |tracked| && tracked[i] == x
  }

  /** How far the store gets when x is acknowledged. */
  function StoredAfter(tracked: seq<int>, acks: set<int>, stored: nat, x: int, recorded: bool): nat {
    if Holds(tracked, stored, x) || !recorded then stored
    else Settled(tracked, acks + {x})
  }

  lemma SettledGrows(tracked: seq<int>, acks: set<int>, more: set<int>)
    ensures Settled(tracked, acks) <= Settled(tracked, acks + more)
  {
    var k := Settled(tracked, acks + more);
    assert k < |tracked| ==> tracked[k] !in acks;
  }

  lemma Order(ns: seq<int>, i: nat, j: nat)
    requires Increasing(ns) && i < |ns| && j < |ns|
    ensures ns[i] < ns[j] <==> i < j
    ensures ns[i] == ns[j] <==> i == j
  {
    if i < j { assert ns[i] < ns[j]; } else if j < i { assert ns[j] < ns[i]; }
  }

  /** Marking a number that is not stored yet flags its entry and no other. */
  lemma MarkForm(base: Option<int>, tracked: seq<int>, acks: set<int>, stored: nat, j: nat)
    requires Increasing(tracked) && stored <= j < |tracked|
    ensures Mark(Form(base, tracked, acks, stored).delivered, tracked[j])
         == Form(base, tracked, acks + {tracked[j]}, stored).delivered
  {
    var ds := Form(base, tracked, acks, stored).delivered;
    var i := Find(ds, tracked[j], 0);
    assert ds[j - stored].sequenceNumber == tracked[j];
    Order(tracked, stored + i, j);
    forall m | 0 <= m < |ds| && m != i ensures ds[m].sequenceNumber != tracked[j] {
      Order(tracked, stored + m, j);
    }
  }

  lemma PrefixForm(base: Option<int>, tracked: seq<int>, acks: set<int>, stored: nat)
    requires stored <= Settled(tracked, acks)
    ensures AckedPrefix(Form(base, tracked, acks, stored).delivered) == Settled(tracked, acks) - stored
  {
    var ds := Form(base, tracked, acks, stored).delivered;
    var k, r := Settled(tracked, acks), AckedPrefix(ds);
    assert k < |tracked| ==> !ds[k - stored].acknowledged;
    assert stored + r < |tracked| ==> tracked[stored + r] !in acks;
  }

  /** A tracked number is past exactly when it is among the stored ones. */
  lemma PastForm(base: Option<int>, tracked: seq<int>, acks: set<int>, stored: nat, j: nat)
    requires Increasing(tracked) && Above(base, tracked) && j < |tracked| && stored <= |tracked|
    ensures Past(Form(base, tracked, acks, stored), tracked[j]) <==> j < stored
    ensures Holds(tracked, stored, tracked[j]) <==> j < stored
  {
    if j < stored {
      assert tracked[j] <= tracked[stored - 1];
    } else {
      if stored > 0 { assert tracked[stored - 1] < tracked[j]; }
      forall i | 0 <= i < stored ensures tracked[i] != tracked[j] { Order(tracked, i, j); }
    }
  }

  /** Storing further drops the acknowledged head. */
  lemma DropForm(base: Option<int>, tracked: seq<int>, acks: set<int>, stored: nat, k: nat)
    requires stored < k <= |tracked|
    ensures var ds := Form(base, tracked, acks, stored).delivered;
            && |ds| == |tracked| - stored
            && ds[k - stored - 1].sequenceNumber == tracked[k - 1]
            && Form(base, tracked, acks, k) == Tracker(Some(tracked[k - 1]), ds[k - stored..])
  {}

  /** acknowledge, from what marking and the prefix scan yield. */
  lemma Unfold(t: Tracker, n: int, ds: seq<Delivered>, k: nat, kept: Tracker, trimmed: Tracker)
    requires !Past(t, n) && ds == Mark(t.delivered, n) && k == AckedPrefix(ds)
    requires kept == t.(delivered := ds)
    requires trimmed == if k == 0 then kept else Tracker(Some(ds[k - 1].sequenceNumber), ds[k..])
    ensures Request(t, n) == if k == 0 then None else trimmed.committed
    ensures Acknowledge(t, n, false) == kept
    ensures Acknowledge(t, n, true) == trimmed
  {}

  lemma PendingMark(base: Option<int>, tracked: seq<int>, acks: set<int>, stored: nat, j: nat)
    requires Increasing(tracked) && Above(base, tracked) && stored <= j < |tracked|
    requires stored <= Settled(tracked, acks)
    ensures var acks' := acks + {tracked[j]};
            var ds := Form(base, tracked, acks', stored).delivered;
            && stored <= Settled(tracked, acks')
            && !Past(Form(base, tracked, acks, stored), tracked[j])
            && Mark(Form(base, tracked, acks, stored).delivered, tracked[j]) == ds
            && AckedPrefix(ds) == Settled(tracked, acks') - stored
  {
    SettledGrows(tracked, acks, {tracked[j]});
    PastForm(base, tracked, acks, stored, j);
    MarkForm(base, tracked, acks, stored, j);
    PrefixForm(base, tracked, acks + {tracked[j]}, stored);
  }

  /** Acknowledging a number that is not stored yet. */
  lemma AcknowledgePending(base: Option<int>, tracked: seq<int>, acks: set<int>, stored: nat, j: nat, recorded: bool)
    requires Increasing(tracked) && Above(base, tracked) && stored <= j < |tracked|
    requires stored <= Settled(tracked, acks)
    ensures var acks' := acks + {tracked[j]};
            var k := Settled(tracked, acks');
            var t := Form(base, tracked, acks, stored);
            && stored <= k
            && Acknowledge(t, tracked[j], recorded) == Form(base, tracked, acks', if recorded then k else stored)
            && Request(t, tracked[j]) == if k == stored then None else Some(tracked[k - 1])
  {
    var acks' := acks + {tracked[j]};
    var k := Settled(tracked, acks');
    var t, kept := Form(base, tracked, acks, stored), Form(base, tracked, acks', stored);
    PendingMark(base, tracked, acks, stored, j);
    if k > stored { DropForm(base, tracked, acks', stored, k); }
    Unfold(t, tracked[j], kept.delivered, k - stored, kept, Form(base, tracked, acks', k));
  }

  lemma AcknowledgeForm(base: Option<int>, tracked: seq<int>, acks: set<int>, stored: nat, x: int, recorded: bool)
    requires Increasing(tracked) && Above(base, tracked) && x in tracked
    requires stored <= Settled(tracked, acks)
    ensures var stored' := StoredAfter(tracked, acks, stored, x, recorded);
            && stored <= stored' <= Settled(tracked, acks + {x})
            && Acknowledge(Form(base, tracked, acks, stored), x, recorded) == Form(base, tracked, acks + {x}, stored')
  {
    var j :| 0 <= j < |tracked| && tracked[j] == x;
    PastForm(base, tracked, acks, stored, j);
    if j < stored {
      assert acks + {x} == acks;
    } else {
      AcknowledgePending(base, tracked, acks, stored, j, recorded);
    }
  }

  lemma RequestForm(base: Option<int>, tracked: seq<int>, acks: set<int>, stored: nat, x: int)
    requires Increasing(tracked) && Above(base, tracked) && x in tracked
    requires stored <= Settled(tracked, acks)
    requires Request(Form(base, tracked, acks, stored), x).Some?
    ensures var k := Settled(tracked, acks + {x});
            && 0 < k && Request(Form(base, tracked, acks, stored), x) == Some(tracked[k - 1])
            && StoredAfter(tracked, acks, stored, x, true) == k
  {
    var j :| 0 <= j < |tracked| && tracked[j] == x;
    PastForm(base, tracked, acks, stored, j);
    AcknowledgePending(base, tracked, acks, stored, j, true);
  }

  lemma TrackForm(base: Option<int>, tracked: seq<int>, acks: set<int>, stored: nat, n: int)
    requires Increasing(tracked + [n]) && Above(base, tracked + [n]) && n !in acks
    requires stored <= Settled(tracked, acks)
    ensures stored <= Settled(tracked + [n], acks)
    ensures Settled(tracked + [n], acks) == Settled(tracked, acks)
    ensures Track(Form(base, tracked, acks, stored), n) == Form(base, tracked + [n], acks, stored)
  {
    var t := Form(base, tracked, acks, stored);
    var all := tracked + [n];
    assert all[|tracked|] == n;
    forall i | 0 <= i < |tracked| ensures tracked[i] < n { assert all[i] < all[|tracked|]; }
    assert !Past(t, n);
    assert !Tracks(t.delivered, n);
    var k, k' := Settled(tracked, acks), Settled(all, acks);
    assert k' < |all| ==> all[k'] !in acks;
    assert k < |tracked| ==> all[k] !in acks;
  }

  // ----- runs of one tracker

  /** A call on the tracker; `recorded` is the store's answer if it is asked. */
  datatype Call = TrackCall(n: int) | AckCall(n: int, recorded: bool)

  function Apply(t: Tracker, c: Call): Tracker {
    match c
    case TrackCall(n) => Track(t, n)
    case AckCall(n, recorded) => Acknowledge(t, n, recorded)
  }

  function Run(t: Tracker, calls: seq<Call>): Tracker {
    if calls == [] then t else Apply(Run(t, calls[..|calls| - 1]), calls[|calls| - 1])
  }

  function TrackedBy(calls: seq<Call>): seq<int> {
    if calls == [] then []
    else TrackedBy(calls[..|calls| - 1]) +
         (if calls[|calls| - 1].TrackCall? then [calls[|calls| - 1].n] else [])
  }

  function AckedBy(calls: seq<Call>): set<int> {
    if calls == [] then {}
    else AckedBy(calls[..|calls| - 1]) +
         (if calls[|calls| - 1].AckCall? then {calls[|calls| - 1].n} else {})
  }

  function StoredBy(calls: seq<Call>): nat {
    if calls == [] then 0
    else
      var before := calls[..|calls| - 1];
      var c := calls[|calls| - 1];
      if c.TrackCall? then StoredBy(before)
      else StoredAfter(TrackedBy(before), AckedBy(before), StoredBy(before), c.n, c.recorded)
  }

  /** A partition delivers in increasing order above its start, and an acknowledgement exists only
      for a number tracked before it. */
  predicate WellFormed(base: Option<int>, calls: seq<Call>) {
    && Increasing(TrackedBy(calls)) && Above(base, TrackedBy(calls))
    && forall i :: 0 <= i < |calls| && calls[i].AckCall? ==> calls[i].n in TrackedBy(calls[..i])
  }

  lemma {:induction false} TrackedPrefix(calls: seq<Call>, i: nat)
    requires i <= |calls|
    ensures TrackedBy(calls[..i]) <= TrackedBy(calls)
  {
    if i < |calls| {
      var before := calls[..|calls| - 1];
      TrackedPrefix(before, i);
      assert before[..i] == calls[..i];
    } else {
      assert calls[..i] == calls;
    }
  }

  lemma {:induction false} AckedAreTracked(base: Option<int>, calls: seq<Call>)
    requires WellFormed(base, calls)
    ensures forall n :: n in AckedBy(calls) ==> n in TrackedBy(calls)
  {
    if calls != [] {
      WellFormedBefore(base, calls);
      AckedAreTracked(base, calls[..|calls| - 1]);
      assert calls[..|calls|- 1] == calls[..|calls| - 1];
    }
  }

  lemma WellFormedBefore(base: Option<int>, calls: seq<Call>)
    requires calls != [] && WellFormed(base, calls)
    ensures WellFormed(base, calls[..|calls| - 1])
  {
    var before := calls[..|calls| - 1];
    TrackedPrefix(calls, |calls| - 1);
    forall i | 0 <= i < |before| && before[i].AckCall? ensures before[i].n in TrackedBy(before[..i]) {
      assert before[..i] == calls[..i];
    }
  }

  /** Every run, with stores that fail at will, is described by three facts: the numbers tracked,
      the set acknowledged, and how many are stored. */
  lemma {:induction false} RunForm(base: Option<int>, calls: seq<Call>)
    requires WellFormed(base, calls)
    ensures StoredBy(calls) <= Settled(TrackedBy(calls), AckedBy(calls))
    ensures Run(Tracker(base, []), calls) == Form(base, TrackedBy(calls), AckedBy(calls), StoredBy(calls))
  {
    if calls != [] {
      var before := calls[..|calls| - 1];
      var c := calls[|calls| - 1];
      WellFormedBefore(base, calls);
      RunForm(base, before);
      match c {
        case TrackCall(n) =>
          AckedAreTracked(base, before);
          var all := TrackedBy(calls);
          assert all == TrackedBy(before) + [n];
          assert n !in TrackedBy(before) by {
            forall i | 0 <= i < |TrackedBy(before)| ensures TrackedBy(before)[i] != n {
              assert all[i] < all[|all| - 1];
            }
          }
          TrackForm(base, TrackedBy(before), AckedBy(before), StoredBy(before), n);
          assert AckedBy(calls) == AckedBy(before);
        case AckCall(n, recorded) =>
          assert calls[..|calls| - 1] == before;
          assert n in TrackedBy(before);
          assert TrackedBy(calls) == TrackedBy(before);
          AcknowledgeForm(base, TrackedBy(before), AckedBy(before), StoredBy(before), n, recorded);
      }
    }
  }

  predicate NeverFails(calls: seq<Call>) {
    forall i :: 0 <= i < |calls| && calls[i].AckCall? ==> calls[i].recorded
  }

  lemma {:induction false} NeverFailsStoresAll(base: Option<int>, calls: seq<Call>)
    requires WellFormed(base, calls) && NeverFails(calls)
    ensures StoredBy(calls) == Settled(TrackedBy(calls), AckedBy(calls))
  {
    if calls != [] {
      var before := calls[..|calls| - 1];
      var c := calls[|calls| - 1];
      WellFormedBefore(base, calls);
      NeverFailsStoresAll(base, before);
      RunForm(base, before);
      AckedAreTracked(base, before);
      if c.TrackCall? {
        var all := TrackedBy(calls);
        assert all == TrackedBy(before) + [c.n];
        assert c.n !in TrackedBy(before) by {
          forall i | 0 <= i < |TrackedBy(before)| ensures TrackedBy(before)[i] != c.n { assert all[i] < all[|all| - 1]; }
        }
        TrackForm(base, TrackedBy(before), AckedBy(before), StoredBy(before), c.n);
        assert AckedBy(calls) == AckedBy(before);
      } else {
        assert TrackedBy(calls) == TrackedBy(before);
        if i :| 0 <= i < StoredBy(before) && TrackedBy(before)[i] == c.n {
          assert c.n in AckedBy(before);
          assert AckedBy(calls) == AckedBy(before);
        }
      }
    }
  }

  /** With a store that never fails, two runs that tracked the same numbers and acknowledged the
      same set end in the same tracker, in whatever order and interleaving they did so. */
  lemma AcknowledgementOrderIsIrrelevant(base: Option<int>, a: seq<Call>, b: seq<Call>)
    requires WellFormed(base, a) && WellFormed(base, b) && NeverFails(a) && NeverFails(b)
    requires TrackedBy(a) == TrackedBy(b) && AckedBy(a) == AckedBy(b)
    ensures Run(Tracker(base, []), a) == Run(Tracker(base, []), b)
  {
    RunForm(base, a);
    RunForm(base, b);
    NeverFailsStoresAll(base, a);
    NeverFailsStoresAll(base, b);
  }

  /** n is a tracked number with nothing unacknowledged at or below it. */
  predicate Clear(tracked: seq<int>, acks: set<int>, n: int) {
    n in tracked && forall m :: m in tracked && m <= n ==> m in acks
  }

  /** After an acknowledgement that asked the store and was accepted, whatever failed before it,
      the committed number is the largest clear one. */
  lemma CommittedIsLargestClear(base: Option<int>, calls: seq<Call>, x: int)
    requires WellFormed(base, calls + [AckCall(x, true)])
    requires Request(Run(Tracker(base, []), calls), x).Some?
    ensures var tracked := TrackedBy(calls);
            var acks := AckedBy(calls) + {x};
            var t := Run(Tracker(base, []), calls + [AckCall(x, true)]);
            && t.committed == Request(Run(Tracker(base, []), calls), x)
            && Clear(tracked, acks, t.committed.value)
            && forall n :: Clear(tracked, acks, n) ==> n <= t.committed.value
  {
    var after := calls + [AckCall(x, true)];
    assert after[..|after| - 1] == calls;
    WellFormedBefore(base, after);
    RunForm(base, calls);
    RunForm(base, after);
    var tracked := TrackedBy(calls);
    var acks := AckedBy(calls) + {x};
    assert TrackedBy(after) == tracked && AckedBy(after) == acks;
    assert after[|calls|].AckCall? && after[..|calls|] == calls;
    var t := Run(Tracker(base, []), calls);
    assert x in tracked;
    RequestForm(base, tracked, AckedBy(calls), StoredBy(calls), x);
    var k := Settled(tracked, acks);
    assert StoredBy(after) == k;
    LargestClear(tracked, acks, k);
  }

  lemma LargestClear(tracked: seq<int>, acks: set<int>, k: nat)
    requires Increasing(tracked) && k == Settled(tracked, acks) && k > 0
    ensures Clear(tracked, acks, tracked[k - 1])
    ensures forall n :: Clear(tracked, acks, n) ==> n <= tracked[k - 1]
  {
    var c := tracked[k - 1];
    forall m | m in tracked && m <= c ensures m in acks {
      var j :| 0 <= j < |tracked| && tracked[j] == m;
      Order(tracked, k - 1, j);
    }
    forall n | Clear(tracked, acks, n) ensures n <= c {
      var j :| 0 <= j < |tracked| && tracked[j] == n;
      Order(tracked, k - 1, j);
      if k < |tracked| {
        Order(tracked, k, j);
        assert tracked[k] in tracked;
      }
    }
  }
}
