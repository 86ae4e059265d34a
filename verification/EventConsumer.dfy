/** The consumer, its trackers and its checkpoint store as the objects the program updates, each
    method proved against the functions on values. Failures of the disk, the network and the
    context arrive as parameters. */
module EventConsumer {
  import opened Wrappers
  import opened CheckpointTracking
  import opened ConsumerRuns
  import opened AtLeastOnce

  class CheckpointFile {
    var contents: File

    constructor (contents: File)
      ensures this.contents == contents
    {
      this.contents := contents;
    }
  }

  /** azureFileCheckpointStore; `durable` says that its path is not empty. */
  class FileCheckpointStore {
    const durable: bool
    const file: CheckpointFile
    var loaded: bool
    var partitions: map<string, int>

    constructor (durable: bool, file: CheckpointFile)
      ensures State() == Store(durable, false, NO_CHECKPOINTS)
      ensures this.durable == durable && this.file == file
    {
      this.durable, this.file, loaded, partitions := durable, file, false, map[];
    }

    ghost function State(): Store
      reads this
    {
      Store(durable, loaded, partitions)
    }

    method LoadLocked(readable: bool) returns (ok: bool)
      modifies this
      ensures (State(), ok) == Load(old(State()), file.contents, readable)
    {
      if loaded { return true; }
      loaded := true;
      partitions := map[];
      if !durable { return true; }
      match file.contents {
        case Missing => return true;
        case Malformed => return false;
        case Checkpoints(sequences) =>
          if !readable { return false; }
          partitions := sequences;
          return true;
      }
    }

    method StartPosition(readable: bool, id: string) returns (start: Option<int>)
      modifies this
      ensures (State(), start) == CheckpointTracking.StartPosition(old(State()), file.contents, readable, id)
    {
      var ok := LoadLocked(readable);
      if !ok || id !in partitions { return None; }
      return Some(partitions[id]);
    }

    method PersistLocked(write: Write) returns (ok: bool)
      modifies file
      ensures (file.contents, ok) == Persist(State(), old(file.contents), write)
    {
      if !durable { return true; }
      if write.renamed {
        file.contents := Checkpoints(partitions);
      }
      return write.reported;
    }

    method Record(readable: bool, id: string, n: int, write: Write) returns (ok: bool)
      modifies this, file
      ensures (State(), file.contents, ok)
           == CheckpointTracking.Record(old(State()), old(file.contents), readable, id, n, write)
    {
      ok := LoadLocked(readable);
      if !ok { return; }
      if id in partitions && n <= partitions[id] { return true; }
      partitions := partitions[id := n];
      ok := PersistLocked(write);
    }
  }

  /** azurePartitionCheckpointTracker. */
  class PartitionTracker {
    const partitionID: string
    const store: FileCheckpointStore?
    var committedSet: bool
    var committedSeq: int
    var delivered: seq<Delivered>

    constructor (partitionID: string, store: FileCheckpointStore?, start: Option<int>)
      ensures this.partitionID == partitionID && this.store == store
      ensures State() == Tracker(start, [])
    {
      this.partitionID, this.store := partitionID, store;
      committedSet, committedSeq := start.Some?, if start.Some? then start.value else 0;
      delivered := [];
    }

    ghost function State(): Tracker
      reads this
    {
      Tracker(if committedSet then Some(committedSeq) else None, delivered)
    }

    method Track(n: int)
      modifies this`delivered
      ensures State() == CheckpointTracking.Track(old(State()), n)
    {
      if committedSet && n <= committedSeq { return; }
      for i := 0 to |delivered|
        invariant forall k :: 0 <= k < i ==> delivered[k].sequenceNumber != n
        invariant delivered == old(delivered)
      {
        if delivered[i].sequenceNumber == n { return; }
      }
      delivered := delivered + [Delivered(n, false)];
    }

    method AcknowledgedPrefixLocked() returns (commit: int, prefixLen: nat, ok: bool)
      ensures prefixLen == AckedPrefix(delivered) && ok == (prefixLen > 0)
      ensures ok ==> commit == delivered[prefixLen - 1].sequenceNumber
    {
      prefixLen, commit := 0, 0;
      while prefixLen < |delivered| && delivered[prefixLen].acknowledged
        invariant prefixLen <= |delivered|
        invariant AckedFrom(delivered, prefixLen) == AckedPrefix(delivered)
        invariant prefixLen > 0 ==> commit == delivered[prefixLen - 1].sequenceNumber
      {
        commit := delivered[prefixLen].sequenceNumber;
        prefixLen := prefixLen + 1;
      }
      ok := prefixLen > 0;
    }

    method Acknowledge(n: int, readable: bool, write: Write) returns (ok: bool)
      modifies this, (if store == null then {} else {store}), (if store == null then {} else {store.file})
      ensures var request := Request(old(State()), n);
              if request.None? || store == null then
                && ok
                && State() == CheckpointTracking.Acknowledge(old(State()), n, true)
                && (store != null ==> store.State() == old(store.State()) && store.file.contents == old(store.file.contents))
              else
                && (store.State(), store.file.contents, ok)
                   == CheckpointTracking.Record(old(store.State()), old(store.file.contents), readable, partitionID,
                                                request.value, write)
                && State() == CheckpointTracking.Acknowledge(old(State()), n, ok)
    {
      if committedSet && n <= committedSeq { return true; }
      var i := 0;
      while i < |delivered| && delivered[i].sequenceNumber != n
        invariant i <= |delivered|
        invariant Find(delivered, n, i) == Find(delivered, n, 0)
      {
        i := i + 1;
      }
      if i < |delivered| {
        delivered := delivered[i := delivered[i].(acknowledged := true)];
      } else {
        delivered := delivered + [Delivered(n, true)];
      }
      assert delivered == Mark(old(delivered), n);
      var commit, prefixLen, any := AcknowledgedPrefixLocked();
      if !any { return true; }
      if store != null {
        var recorded := store.Record(readable, partitionID, commit, write);
        if !recorded { return false; }
      }
      delivered := delivered[prefixLen..];
      committedSet, committedSeq := true, commit;
      return true;
    }
  }

  /** A partition client: its log, and the place of the next event it returns. */
  class PartitionClient {
    const log: Log
    var next: nat

    constructor (log: Log, start: Option<int>)
      ensures this.log == log && next == StartIndex(log, start, 0)
    {
      this.log, next := log, StartIndex(log, start, 0);
    }

    method ReceiveEvents(count: nat, poll: Poll) returns (events: seq<Event>)
      requires next <= |log|
      modifies this
      ensures next == old(next) + Yield(log, old(next), count, poll) <= |log|
      ensures events == log[old(next)..next]
    {
      var n := Yield(log, next, count, poll);
      events := log[next..next + n];
      next := next + n;
    }
  }

  datatype PartitionReceiver = PartitionReceiver(id: string, client: PartitionClient, tracker: PartitionTracker) {
    predicate Names(id: string, store: FileCheckpointStore?) {
      this.id == id && tracker.partitionID == id && tracker.store == store
    }
  }

  ghost function StateOf(r: PartitionReceiver): Receiver
    reads r.client, r.tracker
  {
    Receiver(r.client.next, r.tracker.State())
  }

  /** messageFromAzureEvent: the event is tracked before its body is decoded. */
  method MessageFromEvent(stream: string, e: Event, tracker: PartitionTracker, partition: nat) returns (m: Option<Message>)
    modifies tracker`delivered
    ensures tracker.State() == Track(old(tracker.State()), e.sequenceNumber)
    ensures m == if e.body.Some? then Some(ToMessage(stream, e, partition)) else None
  {
    tracker.Track(e.sequenceNumber);
    if e.body.None? { return None; }
    var record := e.body.value;
    if record.stream == "" {
      record := record.(stream := stream);
    }
    return Some(Message(record.stream, record.envelope, partition, e.sequenceNumber));
  }

  /** Tracks and decodes a batch in order, up to the first event that does not decode. */
  method ConsumeEvents(stream: string, events: seq<Event>, tracker: PartitionTracker, p: nat)
    returns (batch: seq<Message>, ok: bool)
    modifies tracker`delivered
    ensures (tracker.State(), batch, ok) == Consume(stream, events, old(tracker.State()), p, 0, |events|)
  {
    hide Consume;
    batch, ok := [], true;
    ghost var whole := Consume(stream, events, tracker.State(), p, 0, |events|);
    var k := 0;
    while k < |events|
      invariant k <= |events| && ok
      invariant var (t, rest, good) := Consume(stream, events, tracker.State(), p, k, |events|);
                whole.0 == t && whole.1 == batch + rest && whole.2 == good
    {
      ConsumeStep(stream, events, tracker.State(), p, k, |events|);
      var m := MessageFromEvent(stream, events[k], tracker, p);
      if m.None? {
        assert whole.1 == batch;
        return batch, false;
      }
      batch := batch + [m.value];
      k := k + 1;
    }
    ConsumeEnd(stream, events, tracker.State(), p);
    assert whole.1 == batch;
  }

  /** One poll of one partition: fetch, then track and decode. */
  method PollReceiver(stream: string, client: PartitionClient, tracker: PartitionTracker, p: nat, count: nat, poll: Poll)
    returns (batch: seq<Message>, ok: bool)
    requires client.next <= |client.log|
    modifies client, tracker`delivered
    ensures (Receiver(client.next, tracker.State()), batch, ok)
         == PollPartition(stream, client.log, Receiver(old(client.next), old(tracker.State())), p, count, poll)
  {
    if poll.Fault? { return [], false; }
    var events := client.ReceiveEvents(count, poll);
    ConsumeSlice(stream, client.log, tracker.State(), p, old(client.next), old(client.next), client.next);
    batch, ok := ConsumeEvents(stream, events, tracker, p);
  }

  ghost predicate Separate(rs: seq<PartitionReceiver>) {
    forall i, j :: 0 <= i < j < |rs| ==> rs[i].client != rs[j].client && rs[i].tracker != rs[j].tracker
  }

  /** r is the untouched receiver of a partition opened at `state`. */
  ghost predicate OpenedAs(r: PartitionReceiver, id: string, log: Log, store: FileCheckpointStore, state: Receiver)
    reads r.client, r.tracker
  {
    r.Names(id, store) && r.client.log == log && StateOf(r) == state && state.next <= |log|
  }

  /** One partition: its start position, client and tracker. */
  method OpenReceiver(c: Config, i: nat, store: FileCheckpointStore, readable: bool)
    returns (r: PartitionReceiver, ghost state: Receiver)
    requires |c.ids| == |c.logs| && i < |c.ids|
    modifies store
    ensures fresh(r.client) && fresh(r.tracker) && OpenedAs(r, c.ids[i], c.logs[i], store, state)
    ensures var (s, rest) := OpenFrom(c, store.State(), store.file.contents, readable, i + 1);
            OpenFrom(c, old(store.State()), store.file.contents, readable, i) == (s, [state] + rest)
  {
    var start := store.StartPosition(readable, c.ids[i]);
    var client := new PartitionClient(c.logs[i], start);
    var tracker := new PartitionTracker(c.ids[i], store, start);
    r, state := PartitionReceiver(c.ids[i], client, tracker), Opened(c.logs[i], start);
  }

  /** openAzurePartitions: one receiver for each partition, opened after its checkpoint. */
  method OpenPartitions(c: Config, store: FileCheckpointStore, readable: bool)
    returns (rs: seq<PartitionReceiver>, ghost states: seq<Receiver>)
    requires |c.ids| == |c.logs|
    modifies store
    ensures |rs| == |states| == |c.ids| && Separate(rs)
    ensures forall k :: 0 <= k < |rs| ==> OpenedAs(rs[k], c.ids[k], c.logs[k], store, states[k])
    ensures (store.State(), states) == OpenFrom(c, old(store.State()), store.file.contents, readable, 0)
  {
    hide OpenFrom;
    rs, states := [], [];
    ghost var whole := OpenFrom(c, store.State(), store.file.contents, readable, 0);
    for i := 0 to |c.ids|
      invariant |rs| == |states| == i && Separate(rs)
      invariant forall k :: 0 <= k < i ==> OpenedAs(rs[k], c.ids[k], c.logs[k], store, states[k])
      invariant var (s, rest) := OpenFrom(c, store.State(), store.file.contents, readable, i);
                whole.0 == s && whole.1 == states + rest
    {
      var r, state := OpenReceiver(c, i, store, readable);
      rs, states := rs + [r], states + [state];
    }
    OpenFromEnd(c, store.State(), store.file.contents, readable);
    assert whole.1 == states;
  }

  /** newAzureEventHubsConsumer. */
  method NewConsumer(c: Config, store: FileCheckpointStore, readable: bool) returns (consumer: Consumer)
    requires |c.ids| == |c.logs|
    modifies store
    ensures consumer.Valid() && consumer.stream == c.stream && consumer.nextIndex == 0
    ensures consumer.Logs == c.logs
    ensures (store.State(), consumer.View) == OpenFrom(c, old(store.State()), store.file.contents, readable, 0)
    ensures forall i :: 0 <= i < |consumer.partitions| ==> consumer.partitions[i].Names(c.ids[i], store)
  {
    var rs, states := OpenPartitions(c, store, readable);
    consumer := new Consumer(c.stream, rs, states, c.logs);
  }

  /** AzureEventHubsConsumer; `View` is what its receivers amount to, `Logs` the logs behind them. */
  class Consumer {
    const stream: string
    var partitions: seq<PartitionReceiver>
    var nextIndex: nat
    ghost var View: seq<Receiver>
    ghost var Logs: seq<Log>

    ghost function Footprint(): set<object>
      reads this`partitions
    {
      (set i | 0 <= i < |partitions| :: partitions[i].client as object)
      + (set i | 0 <= i < |partitions| :: partitions[i].tracker as object)
    }

    ghost predicate Valid()
      reads this`partitions, this`View, this`Logs, Footprint()
    {
      && Separate(partitions) && |View| == |Logs| == |partitions|
      && (forall i :: 0 <= i < |partitions| ==> StateOf(partitions[i]) == View[i] && Logs[i] == partitions[i].client.log)
      && Fits(View, Logs)
    }

    constructor (stream: string, partitions: seq<PartitionReceiver>, ghost view: seq<Receiver>, ghost logs: seq<Log>)
      ensures this.stream == stream && this.partitions == partitions && nextIndex == 0
      ensures View == view && Logs == logs
    {
      this.stream, this.partitions, nextIndex, View, Logs := stream, partitions, 0, view, logs;
    }

    /** Receive. `cancelled` is ctx.Err() at entry; polls[k] is what the k-th poll meets. */
    method Receive(limit: int, cancelled: bool, polls: seq<Poll>) returns (messages: seq<Message>, failed: bool)
      requires Valid() && |polls| == |partitions|
      modifies this`nextIndex, this`View, Footprint()
      ensures Valid() && partitions == old(partitions) && Logs == old(Logs)
      ensures cancelled || |partitions| == 0 ==>
        messages == [] && failed == cancelled && View == old(View) && nextIndex == old(nextIndex)
      ensures !cancelled && |partitions| > 0 ==>
        var s := ReceiveFrom(stream, Logs, Receiving(old(View), old(nextIndex), [], false), 0, Limit(limit), polls);
        && View == s.receivers && nextIndex == s.nextIndex && failed == s.failed
        && messages == if s.failed then [] else s.messages
    {
      messages, failed := [], false;
      if cancelled { return [], true; }
      if |partitions| == 0 { return; }
      messages, failed := Rotate(Limit(limit), polls);
      if failed { messages := []; }
    }

    /** Receive's loop: partitions in rotation until there is enough, all are polled, or one fails. */
    method Rotate(want: nat, polls: seq<Poll>) returns (messages: seq<Message>, failed: bool)
      requires Valid() && |polls| == |partitions| > 0
      modifies this`nextIndex, this`View, Footprint()
      ensures Valid() && partitions == old(partitions) && Logs == old(Logs)
      ensures Receiving(View, nextIndex, messages, failed)
           == ReceiveFrom(stream, Logs, Receiving(old(View), old(nextIndex), [], false), 0, want, polls)
    {
      hide ReceiveFrom;
      messages, failed := [], false;
      var checked := 0;
      ghost var s := Receiving(View, nextIndex, [], false);
      ghost var result := ReceiveFrom(stream, Logs, s, 0, want, polls);
      while !failed && checked < |partitions| && |messages| < want
        invariant Valid() && partitions == old(partitions) && Logs == old(Logs) && checked <= |partitions|
        invariant s == Receiving(View, nextIndex, messages, failed) && |messages| <= want
        invariant ReceiveFrom(stream, Logs, s, checked, want, polls) == result
        decreases |partitions| - checked
      {
        messages, failed, s := Turn(messages, checked, want, polls);
        checked := checked + 1;
      }
      ReceiveEnd(stream, Logs, s, checked, want, polls);
    }

    /** One turn of the loop: the next partition in rotation is polled. */
    method Turn(messages: seq<Message>, checked: nat, want: nat, polls: seq<Poll>)
      returns (messages': seq<Message>, failed: bool, ghost s: Receiving)
      requires Valid() && checked < |partitions| == |polls| && |messages| < want
      modifies this`nextIndex, this`View, Footprint()
      ensures Valid() && partitions == old(partitions) && Logs == old(Logs)
      ensures s == Receiving(View, nextIndex, messages', failed) && |messages'| <= want
      ensures ReceiveFrom(stream, Logs, Receiving(old(View), old(nextIndex), messages, false), checked, want, polls)
           == ReceiveFrom(stream, Logs, s, checked + 1, want, polls)
    {
      var p := nextIndex % |partitions|;
      ghost var before := Receiving(View, nextIndex, messages, false);
      var batch, ok := PollAt(p, want - |messages|, polls[checked]);
      s := Receiving(View, nextIndex + 1, messages + batch, !ok);
      ReceiveTurn(stream, Logs, before, checked, want, polls, s);
      nextIndex, messages', failed := nextIndex + 1, messages + batch, !ok;
    }

    /** One poll of the p-th partition leaves the others alone. */
    method PollAt(p: nat, count: nat, poll: Poll) returns (batch: seq<Message>, ok: bool)
      requires Valid() && p < |partitions|
      modifies this`View, partitions[p].client, partitions[p].tracker
      ensures Valid() && partitions == old(partitions) && Logs == old(Logs)
      ensures var (r, ms, good) := PollPartition(stream, partitions[p].client.log, old(View)[p], p, count, poll);
              View == old(View)[p := r] && batch == ms && ok == good
    {
      batch, ok := PollReceiver(stream, partitions[p].client, partitions[p].tracker, p, count, poll);
      View := View[p := StateOf(partitions[p])];
    }

    /** Close: the consumer forgets its receivers. */
    method Close()
      modifies this`partitions, this`View, this`Logs
      ensures Valid() && partitions == []
    {
      partitions, View, Logs := [], [], [];
    }
  }
}
