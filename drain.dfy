/**
 * `check_volumes`: drains the volume queue in batches while the Lambda has
 * more than 30 seconds left, handing every message to the volume handler
 * with one set of processed volumes shared by the whole run, and deleting
 * every message it received whatever the handler did.
 *
 * The queue and the clock are a script of rounds: the remaining time read
 * before a receive, and the messages that receive returns. Past the end of
 * the script the queue is empty.
 */
module Drain {
  import opened Wrappers
  import opened Messages
  import opened Volumes

  /** The loop stops once no more than this many milliseconds are left. */
  const ExitTimeMillis: int := 30000

  /** One queue message: its id, its body (absent when it is not a work item), and what EC2 does while it is handled. */
  datatype Message = Message(messageId: string, body: Option<WorkItem>, responses: Responses)

  /** One turn of the loop: the remaining time, then what the receive returns. */
  datatype Round = Round(remainingMillis: int, messages: seq<Message>)

  /**
   * The state of a run: the volumes seen, every request and counter of the
   * handlers in order, the ids of the messages deleted, and the success and
   * failure tallies.
   */
  datatype Run = Run(processed: set<string>, calls: seq<Call>, metrics: seq<Metric>, deleted: seq<string>, succeeded: nat, failed: nat)

  /** A run before its first message. */
  function Start(): Run {
    Run({}, [], [], [], 0, 0)
  }

  /**
   * A handler for one message: its body, the set of volumes seen so far, and
   * what EC2 does, to the outcome. The run below is stated for any handler;
   * the one the loop calls is `HandleSpec`.
   */
  type Handler = (Option<WorkItem>, set<string>, Responses) -> Handled

  /** Handling one more message, with the set left by the messages before it. */
  function Step(run: Run, m: Message, handle: Handler): Run {
    Record(run, m, handle(m.body, run.processed, m.responses))
  }

  /** The run once `m` has been handled with outcome `h` and deleted. */
  function Record(run: Run, m: Message, h: Handled): (r: Run)
    ensures r.deleted == run.deleted + [m.messageId]
    ensures r.succeeded + r.failed == run.succeeded + run.failed + 1
  {
    Run(h.processed, run.calls + h.calls, run.metrics + h.metrics, run.deleted + [m.messageId],
      if h.raised then run.succeeded else run.succeeded + 1,
      if h.raised then run.failed + 1 else run.failed)
  }

  /** The run that goes on from `start` with `msgs`, in order. */
  function RunFrom(start: Run, msgs: seq<Message>, handle: Handler): Run
    decreases |msgs|
  {
    if msgs == [] then start else Step(RunFrom(start, msgs[..|msgs| - 1], handle), msgs[|msgs| - 1], handle)
  }

  /** The run of the volume handler over `msgs` from the start. */
  function RunOf(msgs: seq<Message>): Run {
    RunFrom(Start(), msgs, HandleSpec)
  }

  /** Handling two runs of messages one after the other is handling them all, with the set carried over. */
  lemma {:induction false} RunFromAppend(start: Run, a: seq<Message>, b: seq<Message>, handle: Handler)
    ensures RunFrom(start, a + b, handle) == RunFrom(RunFrom(start, a, handle), b, handle)
    decreases |b|
  {
    if b == [] {
      assert a + b == a;
    } else {
      var n := |b| - 1;
      assert (a + b)[..|a + b| - 1] == a + b[..n];
      RunFromAppend(start, a, b[..n], handle);
    }
  }

  /** Every message received in `rounds`, batch after batch. */
  function Received(rounds: seq<Round>): seq<Message>
    decreases |rounds|
  {
    if rounds == [] then [] else Received(rounds[..|rounds| - 1]) + rounds[|rounds| - 1].messages
  }

  /** A round the loop goes through: time is left and the receive returned messages. */
  predicate Continues(r: Round) {
    r.remainingMillis > ExitTimeMillis && r.messages != []
  }

  /** Handling one message and deleting it, whatever the handler did. */
  method HandleAndDelete(run: Run, m: Message) returns (after: Run)
    ensures after == Step(run, m, HandleSpec)
  {
    var h := HandleVolumeMessage(m.body, run.processed, m.responses);
    var succeeded, failed := run.succeeded, run.failed;
    if h.raised {
      failed := failed + 1;
    } else {
      succeeded := succeeded + 1;
    }
    after := Run(h.processed, run.calls + h.calls, run.metrics + h.metrics, run.deleted + [m.messageId], succeeded, failed);
  }

  /** The loop over one received batch. */
  method HandleBatch(run: Run, messages: seq<Message>) returns (after: Run)
    ensures after == RunFrom(run, messages, HandleSpec)
  {
    after := run;
    for j := 0 to |messages|
      invariant after == RunFrom(run, messages[..j], HandleSpec)
    {
      assert messages[..j + 1][..j] == messages[..j];
      after := HandleAndDelete(after, messages[j]);
    }
    assert messages[..|messages|] == messages;
  }

  /**
   * `check_volumes`: receive batches while more than 30 seconds are left
   * and the last receive was not empty; handle each message, count it as
   * succeeded or failed, and delete it either way.
   */
  method CheckVolumes(rounds: seq<Round>) returns (run: Run, batches: nat)
    ensures batches <= |rounds|
    ensures forall j :: 0 <= j < batches ==> Continues(rounds[j])
    ensures batches == |rounds| || !Continues(rounds[batches])
    ensures run == RunOf(Received(rounds[..batches]))
  {
    run := Start();
    batches := 0;
    while batches < |rounds| && rounds[batches].remainingMillis > ExitTimeMillis
      invariant batches <= |rounds|
      invariant forall j :: 0 <= j < batches ==> Continues(rounds[j])
      invariant run == RunOf(Received(rounds[..batches]))
    {
      var messages := rounds[batches].messages;
      if messages == [] {
        break;
      }
      assert forall j :: 0 <= j < batches + 1 ==> Continues(rounds[j]);
      NextBatch(rounds, batches);
      run := HandleBatch(run, messages);
      batches := batches + 1;
    }
  }

  /** The run after one more batch goes on from the run before it. */
  lemma NextBatch(rounds: seq<Round>, batches: nat)
    requires batches < |rounds|
    ensures RunOf(Received(rounds[..batches + 1])) == RunFrom(RunOf(Received(rounds[..batches])), rounds[batches].messages, HandleSpec)
  {
    assert Received(rounds[..batches + 1]) == Received(rounds[..batches]) + rounds[batches].messages by {
      assert rounds[..batches + 1][..batches] == rounds[..batches];
    }
    RunFromAppend(Start(), Received(rounds[..batches]), rounds[batches].messages, HandleSpec);
  }

  /** The ids of `msgs`, in order. */
  function Ids(msgs: seq<Message>): (r: seq<string>)
    ensures |r| == |msgs| && forall i :: 0 <= i < |msgs| ==> r[i] == msgs[i].messageId
  {
    seq(|msgs|, i requires 0 <= i < |msgs| => msgs[i].messageId)
  }

  /**
   * Every received message is deleted exactly once, in the order received,
   * and counted exactly once, as succeeded or as failed.
   */
  lemma {:induction false} EveryMessageDeleted(msgs: seq<Message>, handle: Handler)
    ensures RunFrom(Start(), msgs, handle).deleted == Ids(msgs)
    ensures RunFrom(Start(), msgs, handle).succeeded + RunFrom(Start(), msgs, handle).failed == |msgs|
    decreases |msgs|
  {
    if msgs != [] {
      var n := |msgs| - 1;
      EveryMessageDeleted(msgs[..n], handle);
      assert RunFrom(Start(), msgs, handle) == Step(RunFrom(Start(), msgs[..n], handle), msgs[n], handle);
      assert Ids(msgs) == Ids(msgs[..n]) + [msgs[n].messageId];
    }
  }

  /** No volume is listed twice, and every volume listed is in the set. */
  predicate ListedOnceIn(calls: seq<Call>, processed: set<string>) {
    && (forall i :: 0 <= i < |calls| && calls[i].ListSnapshots? ==> calls[i].volumeId in processed)
    && (forall i, j :: 0 <= i < j < |calls| && calls[i].ListSnapshots? && calls[j].ListSnapshots? ==>
          calls[i].volumeId != calls[j].volumeId)
  }

  /** The volume handler lists only a volume not seen before, first, and adds it to the set. */
  ghost predicate ListsOnlyNewVolumes(handle: Handler) {
    forall body, processed, env :: ListsOnlyNew(processed, handle(body, processed, env))
  }

  /**
   * One set is shared by the run: with a handler that lists only volumes it
   * has not seen, each volume's snapshots are listed at most once, and every
   * volume listed is in the set.
   */
  lemma {:induction false} ListedOnce(msgs: seq<Message>, handle: Handler)
    requires ListsOnlyNewVolumes(handle)
    ensures ListedOnceIn(RunFrom(Start(), msgs, handle).calls, RunFrom(Start(), msgs, handle).processed)
    decreases |msgs|
  {
    if msgs != [] {
      var n := |msgs| - 1;
      var m := msgs[n];
      var prev := RunFrom(Start(), msgs[..n], handle);
      ListedOnce(msgs[..n], handle);
      var h := handle(m.body, prev.processed, m.responses);
      assert ListsOnlyNew(prev.processed, h);
      if h.calls == [] {
        assert prev.calls + h.calls == prev.calls;
      } else {
        ListingNewVolume(prev.calls, prev.processed, h.calls, h.calls[0].volumeId);
      }
    }
  }

  /** `handle_volume_message` lists only volumes it has not seen. */
  lemma HandlerListsOnlyNew()
    ensures ListsOnlyNewVolumes(HandleSpec)
  {
    forall body, processed, env ensures ListsOnlyNew(processed, HandleSpec(body, processed, env)) {
    }
  }

  /** In a run of the volume handler, each volume's snapshots are listed at most once. */
  lemma ListedOnceInRun(msgs: seq<Message>)
    ensures ListedOnceIn(RunOf(msgs).calls, RunOf(msgs).processed)
  {
    HandlerListsOnlyNew();
    ListedOnce(msgs, HandleSpec);
  }

  /** Appending the requests for a volume not seen before, which list it first and only there, keeps every volume listed once. */
  lemma ListingNewVolume(calls: seq<Call>, processed: set<string>, more: seq<Call>, v: string)
    requires ListedOnceIn(calls, processed) && v !in processed
    requires |more| > 0 && more[0] == ListSnapshots(v)
    requires forall i :: 0 < i < |more| ==> !more[i].ListSnapshots?
    ensures ListedOnceIn(calls + more, processed + {v})
  {
    var all := calls + more;
    var k := |calls|;
    forall i | 0 <= i < |all| && all[i].ListSnapshots? ensures all[i].volumeId in processed + {v} {
      if i >= k {
        assert all[i] == more[i - k];
      }
    }
    forall i, j | 0 <= i < j < |all| && all[i].ListSnapshots? && all[j].ListSnapshots?
      ensures all[i].volumeId != all[j].volumeId
    {
      if j >= k {
        assert all[j] == more[j - k];
        assert j == k;
        assert all[i] == calls[i];
      }
    }
  }

  /** With such a handler the set only grows: a volume seen once stays seen for the rest of the run. */
  lemma {:induction false} ProcessedGrows(msgs: seq<Message>, k: nat, handle: Handler)
    requires ListsOnlyNewVolumes(handle)
    requires k <= |msgs|
    ensures RunFrom(Start(), msgs[..k], handle).processed <= RunFrom(Start(), msgs, handle).processed
    decreases |msgs| - k
  {
    if k < |msgs| {
      var n := |msgs| - 1;
      assert msgs[..n][..k] == msgs[..k];
      ProcessedGrows(msgs[..n], k, handle);
      var prev := RunFrom(Start(), msgs[..n], handle);
      assert ListsOnlyNew(prev.processed, handle(msgs[n].body, prev.processed, msgs[n].responses));
    } else {
      assert msgs[..k] == msgs;
    }
  }
}
