/**
 * `handle_volume_message`: one work item from the volume queue. The volume
 * is skipped when this run has already seen it; otherwise its snapshots
 * are surveyed (failed and expired ones deleted, the latest remaining one
 * found), and a new snapshot is created and tagged when the latest one is
 * older than the frequency and none is in progress.
 *
 * Instants are whole microseconds since 1970-01-01 (naive UTC), durations
 * whole hours. EC2's answers come in as `Responses`; what the handler asks
 * of EC2 and CloudWatch goes out as the `calls` and `metrics` it returns.
 */
module Volumes {
  import opened Wrappers
  import opened Messages
  import Duration

  /** One hour, in microseconds. */
  const HourMicros: int := 3_600_000_000

  /** 0001-01-01T00:00:00, the earliest `datetime`, in microseconds since 1970. */
  const MinTime: int := -62_135_596_800_000_000

  /** 1970-01-01T00:00:00, where the search for the latest snapshot starts. */
  const Epoch: int := 0

  datatype Snapshot = Snapshot(snapshotId: string, state: string, startTime: int)

  /**
   * The volume's snapshots as `DescribeSnapshots` lists them, page after
   * page; `failed` says that a further page request raised after these.
   */
  datatype Listing = Listing(snapshots: seq<Snapshot>, failed: bool)

  /**
   * What EC2 does during one message: the clock, the listing, the snapshot
   * ids whose deletion raises, whether `CreateSnapshot` answers with a new
   * id (and which), and whether `CreateTags` succeeds.
   */
  datatype Responses = Responses(
    now: int,
    listing: Listing,
    failingDeletes: set<string>,
    createOk: bool,
    newSnapshotId: string,
    tagsOk: bool)

  /** The CloudWatch counters the handler bumps (each once per dimension). */
  datatype Metric = VolumesSkipped | SnapshotsDeleted | SnapshotsCreated | SnapshotErrors

  /** The EC2 requests the handler makes. */
  datatype Call =
    | ListSnapshots(volumeId: string)
    | DeleteSnapshot(snapshotId: string)
    | CreateSnapshot(volumeId: string, description: string)
    | CreateTags(snapshotId: string, tags: seq<Tag>)

  /**
   * What handling one message did: the set of volumes seen so far in this
   * run afterwards, the requests and counters in order, and whether the
   * handler raised.
   */
  datatype Handled = Handled(processed: set<string>, calls: seq<Call>, metrics: seq<Metric>, raised: bool)

  // ---------------------------------------------------------------------
  // Reading the work item
  // ---------------------------------------------------------------------

  /** A work item whose frequency and retention have been parsed, in hours. */
  datatype Settings = Settings(item: WorkItem, frequency: nat, retention: nat)

  /**
   * The work item with both durations parsed, or `None` when the body is
   * not a work item, the frequency is missing, or either duration does not
   * parse: each of these raises before the set of volumes is looked at.
   */
  function ReadSettings(body: Option<WorkItem>): Option<Settings> {
    if body.None? || body.value.frequency.None? then None
    else
      var frequency := Duration.ParseDuration(body.value.frequency.value);
      var retention := Duration.ParseDuration(body.value.retention);
      if frequency.Failure? || retention.Failure? then None
      else Some(Settings(body.value, frequency.value, retention.value))
  }

  /** `now - hours`, the instant before which a snapshot is too old. */
  function Cutoff(now: int, hours: nat): int {
    now - hours * HourMicros
  }

  // ---------------------------------------------------------------------
  // The survey of the volume's snapshots
  // ---------------------------------------------------------------------

  /**
   * The state of the survey: the latest start time of a completed snapshot
   * kept so far, whether one is pending, the ids of the snapshots whose
   * deletion was requested with the counter each bumped, and whether the retention cutoff fell before the
   * earliest `datetime` (which raises).
   */
  datatype Survey = Survey(latest: int, pending: bool, deleted: seq<string>, metrics: seq<Metric>, raised: bool)

  /** The counter a deletion bumps: an error when EC2 refuses it, and the survey goes on either way. */
  function DeleteMetric(snapshotId: string, failing: set<string>): Metric {
    if snapshotId in failing then SnapshotErrors else SnapshotsDeleted
  }

  /** The survey after one more snapshot. */
  function SurveyStep(s: Survey, snap: Snapshot, now: int, retention: nat, failing: set<string>): Survey {
    if snap.state == "pending" then s.(pending := true)
    else if snap.state == "error" then
      s.(deleted := s.deleted + [snap.snapshotId], metrics := s.metrics + [DeleteMetric(snap.snapshotId, failing)])
    else if snap.state == "completed" then
      var cutoff := Cutoff(now, retention);
      if cutoff < MinTime then s.(raised := true)
      else if snap.startTime < cutoff then
        s.(deleted := s.deleted + [snap.snapshotId], metrics := s.metrics + [DeleteMetric(snap.snapshotId, failing)])
      else if snap.startTime > s.latest then s.(latest := snap.startTime)
      else s
    else s
  }

  /** The survey of `snaps`, in order, stopping where it raises. */
  function SurveyOf(snaps: seq<Snapshot>, now: int, retention: nat, failing: set<string>): Survey
    decreases |snaps|
  {
    if snaps == [] then Survey(Epoch, false, [], [], false)
    else
      var s := SurveyOf(snaps[..|snaps| - 1], now, retention, failing);
      if s.raised then s else SurveyStep(s, snaps[|snaps| - 1], now, retention, failing)
  }

  /** A snapshot the survey deletes: a failed one, or a completed one older than the cutoff. */
  predicate Doomed(snap: Snapshot, cutoff: int) {
    snap.state == "error" || (snap.state == "completed" && snap.startTime < cutoff)
  }

  /** A completed snapshot the survey keeps. */
  predicate Kept(snap: Snapshot, cutoff: int) {
    snap.state == "completed" && cutoff <= snap.startTime
  }

  /** The ids of the doomed snapshots among `snaps`, in order. */
  function DoomedIds(snaps: seq<Snapshot>, cutoff: int): seq<string>
    decreases |snaps|
  {
    if snaps == [] then []
    else
      var last := snaps[|snaps| - 1];
      DoomedIds(snaps[..|snaps| - 1], cutoff) + (if Doomed(last, cutoff) then [last.snapshotId] else [])
  }

  /** One deletion request per id, in order. */
  function DeleteCalls(ids: seq<string>): (r: seq<Call>)
    ensures |r| == |ids| && forall i :: 0 <= i < |ids| ==> r[i] == DeleteSnapshot(ids[i])
  {
    seq(|ids|, i requires 0 <= i < |ids| => DeleteSnapshot(ids[i]))
  }

  /** The survey raises exactly when the retention cutoff is out of range and some snapshot is completed. */
  lemma {:induction false} SurveyRaises(snaps: seq<Snapshot>, now: int, retention: nat, failing: set<string>)
    ensures SurveyOf(snaps, now, retention, failing).raised <==>
      Cutoff(now, retention) < MinTime && exists i :: 0 <= i < |snaps| && snaps[i].state == "completed"
    decreases |snaps|
  {
    if snaps != [] {
      var n := |snaps| - 1;
      SurveyRaises(snaps[..n], now, retention, failing);
      assert forall i :: 0 <= i < n ==> snaps[..n][i] == snaps[i];
    }
  }

  /**
   * A survey that does not raise deletes exactly the doomed snapshots, in
   * order, whether or not an earlier deletion failed, and bumps one counter
   * per deletion: `SnapshotErrors` for a refused one, `SnapshotsDeleted`
   * otherwise.
   */
  lemma {:induction false} SurveyDeletes(snaps: seq<Snapshot>, now: int, retention: nat, failing: set<string>)
    requires !SurveyOf(snaps, now, retention, failing).raised
    ensures var s := SurveyOf(snaps, now, retention, failing);
      && s.deleted == DoomedIds(snaps, Cutoff(now, retention))
      && |s.metrics| == |s.deleted|
      && forall i :: 0 <= i < |s.deleted| ==> s.metrics[i] == DeleteMetric(s.deleted[i], failing)
    decreases |snaps|
  {
    if snaps != [] {
      var n := |snaps| - 1;
      SurveyDeletes(snaps[..n], now, retention, failing);
    }
  }

  /** The pending flag is set exactly when some snapshot is pending. */
  lemma {:induction false} SurveyPending(snaps: seq<Snapshot>, now: int, retention: nat, failing: set<string>)
    requires !SurveyOf(snaps, now, retention, failing).raised
    ensures SurveyOf(snaps, now, retention, failing).pending <==> exists i :: 0 <= i < |snaps| && snaps[i].state == "pending"
    decreases |snaps|
  {
    if snaps != [] {
      var n := |snaps| - 1;
      SurveyPending(snaps[..n], now, retention, failing);
      assert forall i :: 0 <= i < n ==> snaps[..n][i] == snaps[i];
    }
  }

  /**
   * `latest` is the largest start time of a kept completed snapshot, or
   * 1970-01-01 when that is larger (or none is kept): deleted snapshots
   * never count.
   */
  lemma {:induction false} SurveyLatest(snaps: seq<Snapshot>, now: int, retention: nat, failing: set<string>)
    requires !SurveyOf(snaps, now, retention, failing).raised
    ensures var s := SurveyOf(snaps, now, retention, failing);
      var cutoff := Cutoff(now, retention);
      && Epoch <= s.latest
      && (forall i :: 0 <= i < |snaps| && Kept(snaps[i], cutoff) ==> snaps[i].startTime <= s.latest)
      && (s.latest == Epoch || exists i :: 0 <= i < |snaps| && Kept(snaps[i], cutoff) && snaps[i].startTime == s.latest)
    decreases |snaps|
  {
    if snaps != [] {
      var n := |snaps| - 1;
      var front := snaps[..n];
      SurveyLatest(front, now, retention, failing);
      assert forall i :: 0 <= i < n ==> front[i] == snaps[i];
    }
  }

  /** Once the survey has raised, the snapshots after that point change nothing. */
  lemma {:induction false} SurveyStaysRaised(snaps: seq<Snapshot>, k: nat, now: int, retention: nat, failing: set<string>)
    requires k <= |snaps|
    requires SurveyOf(snaps[..k], now, retention, failing).raised
    ensures SurveyOf(snaps, now, retention, failing) == SurveyOf(snaps[..k], now, retention, failing)
    decreases |snaps| - k
  {
    if k < |snaps| {
      var n := |snaps| - 1;
      assert snaps[..n][..k] == snaps[..k];
      SurveyStaysRaised(snaps[..n], k, now, retention, failing);
    } else {
      assert snaps[..k] == snaps;
    }
  }

  // ---------------------------------------------------------------------
  // Creating and tagging a snapshot
  // ---------------------------------------------------------------------

  /** The description of a new snapshot, naming the volume, the instance and the device. */
  function Description(item: WorkItem): string {
    "EBS Snapshot Manager for " + item.volumeId + " (" + item.instanceId + " " + item.deviceName + ")"
  }

  /** The instance's `Name` tag, or its id when it has none. */
  function InstanceName(item: WorkItem): string {
    if "Name" in item.instanceTags then item.instanceTags["Name"] else item.instanceId
  }

  /** The tags of a new snapshot, in the order they are sent. */
  function SnapshotTags(item: WorkItem): seq<Tag> {
    [Tag("Name", InstanceName(item) + " drive " + item.deviceName),
     Tag("InstanceId", item.instanceId),
     Tag("DeviceName", item.deviceName),
     Tag("InstanceName", InstanceName(item))]
  }

  /** The create attempt: its requests, and the one counter it bumps. */
  datatype Creation = Creation(calls: seq<Call>, metric: Metric)

  function Create(item: WorkItem, env: Responses): Creation {
    var create := CreateSnapshot(item.volumeId, Description(item));
    if !env.createOk then Creation([create], SnapshotErrors)
    else Creation([create, CreateTags(env.newSnapshotId, SnapshotTags(item))], if env.tagsOk then SnapshotsCreated else SnapshotErrors)
  }

  // ---------------------------------------------------------------------
  // The handler
  // ---------------------------------------------------------------------

  /**
   * What one call of the handler may do to the set and the listing
   * requests: list nothing and leave the set as it was, or list one volume
   * the set did not hold, as the first request and only there, and add it
   * to the set.
   */
  predicate ListsOnlyNew(processed: set<string>, h: Handled) {
    && (forall i :: 0 < i < |h.calls| ==> !h.calls[i].ListSnapshots?)
    && (h.calls == [] ==> h.processed == processed)
    && (h.calls != [] ==>
          && h.calls[0].ListSnapshots?
          && h.calls[0].volumeId !in processed
          && h.processed == processed + {h.calls[0].volumeId})
  }

  /** What handling `body` does, given the volumes seen so far and EC2's answers. */
  function HandleSpec(body: Option<WorkItem>, processed: set<string>, env: Responses): (h: Handled)
    ensures ListsOnlyNew(processed, h)
    ensures ReadSettings(body).None? ==> h == Handled(processed, [], [], true)
  {
    match ReadSettings(body)
    case None => Handled(processed, [], [], true)
    case Some(settings) => HandleItem(settings, processed, env)
  }

  /**
   * What handling a work item whose durations parsed does. The volume is
   * in the set afterwards whatever happens, since it is added before its
   * snapshots are listed; a volume seen before is only counted as skipped.
   */
  function HandleItem(settings: Settings, processed: set<string>, env: Responses): (h: Handled)
    ensures h.processed == processed + {settings.item.volumeId}
    ensures ListsOnlyNew(processed, h)
    ensures settings.item.volumeId in processed ==> h == Handled(processed, [], [VolumesSkipped], false)
    ensures settings.item.volumeId !in processed ==> h.calls[0] == ListSnapshots(settings.item.volumeId)
  {
    var item := settings.item;
    if item.volumeId in processed then Handled(processed, [], [VolumesSkipped], false)
    else
      var seen := processed + {item.volumeId};
      var s := SurveyOf(env.listing.snapshots, env.now, settings.retention, env.failingDeletes);
      var calls := [ListSnapshots(item.volumeId)] + DeleteCalls(s.deleted);
      var cutoff := Cutoff(env.now, settings.frequency);
      if s.raised || env.listing.failed || cutoff < MinTime then Handled(seen, calls, s.metrics, true)
      else if s.latest < cutoff && !s.pending then
        var c := Create(item, env);
        Handled(seen, calls + c.calls, s.metrics + [c.metric], false)
      else Handled(seen, calls, s.metrics, false)
  }

  /**
   * The loop over the volume's snapshots: note a pending one, delete a
   * failed or expired one (counting the outcome and going on), and keep
   * the latest start time of the others.
   */
  method SurveySnapshots(snaps: seq<Snapshot>, now: int, retention: nat, failing: set<string>) returns (s: Survey)
    ensures s == SurveyOf(snaps, now, retention, failing)
  {
    var latest := Epoch;
    var pending := false;
    var deleted: seq<string> := [];
    var metrics: seq<Metric> := [];
    for i := 0 to |snaps|
      invariant SurveyOf(snaps[..i], now, retention, failing) == Survey(latest, pending, deleted, metrics, false)
    {
      var snap := snaps[i];
      assert snaps[..i + 1][..i] == snaps[..i];
      var delete := false;
      if snap.state == "pending" {
        pending := true;
      } else if snap.state == "error" {
        delete := true;
      } else if snap.state == "completed" {
        var cutoff := now - retention * HourMicros;
        if cutoff < MinTime {
          SurveyStaysRaised(snaps, i + 1, now, retention, failing);
          return Survey(latest, pending, deleted, metrics, true);
        }
        if snap.startTime < cutoff {
          delete := true;
        } else if snap.startTime > latest {
          latest := snap.startTime;
        }
      }
      if delete {
        deleted := deleted + [snap.snapshotId];
        metrics := metrics + [if snap.snapshotId in failing then SnapshotErrors else SnapshotsDeleted];
      }
    }
    assert snaps[..|snaps|] == snaps;
    return Survey(latest, pending, deleted, metrics, false);
  }

  /**
   * `handle_volume_message`: parse the durations, then handle the work
   * item. Every key is read and both durations are parsed before the set of
   * volumes is looked at.
   */
  method HandleVolumeMessage(body: Option<WorkItem>, processed: set<string>, env: Responses) returns (h: Handled)
    ensures h == HandleSpec(body, processed, env)
  {
    var settings := ReadSettings(body);
    if settings.None? {
      return Handled(processed, [], [], true);
    }
    h := HandleWorkItem(settings.value, processed, env);
  }

  /**
   * The rest of `handle_volume_message`: skip a volume already seen,
   * survey its snapshots, then create and tag a new snapshot if one is due.
   */
  method HandleWorkItem(settings: Settings, processed: set<string>, env: Responses) returns (h: Handled)
    ensures h == HandleItem(settings, processed, env)
  {
    var item, frequency, retention := settings.item, settings.frequency, settings.retention;
    if item.volumeId in processed {
      return Handled(processed, [], [VolumesSkipped], false);
    }
    var seen := processed + {item.volumeId};
    var s := SurveySnapshots(env.listing.snapshots, env.now, retention, env.failingDeletes);
    var calls := [ListSnapshots(item.volumeId)] + DeleteCalls(s.deleted);
    var metrics := s.metrics;
    var cutoff := env.now - frequency * HourMicros;
    if s.raised || env.listing.failed || cutoff < MinTime {
      return Handled(seen, calls, metrics, true);
    }
    if s.latest < cutoff && !s.pending {
      calls := calls + [CreateSnapshot(item.volumeId, Description(item))];
      if !env.createOk {
        metrics := metrics + [SnapshotErrors];
      } else {
        calls := calls + [CreateTags(env.newSnapshotId, SnapshotTags(item))];
        metrics := metrics + [if env.tagsOk then SnapshotsCreated else SnapshotErrors];
      }
    }
    return Handled(seen, calls, metrics, false);
  }

  // ---------------------------------------------------------------------
  // Properties of the handler
  // ---------------------------------------------------------------------

  /**
   * The create decision, when the survey completes: a snapshot is created
   * exactly when none is pending, every kept completed snapshot started
   * before `now - frequency`, and so did 1970-01-01.
   */
  lemma CreateDecision(settings: Settings, processed: set<string>, env: Responses)
    requires settings.item.volumeId !in processed
    requires !HandleItem(settings, processed, env).raised
    ensures var snaps := env.listing.snapshots;
      var fc := Cutoff(env.now, settings.frequency);
      var rc := Cutoff(env.now, settings.retention);
      var h := HandleItem(settings, processed, env);
      (exists i :: 0 <= i < |h.calls| && h.calls[i].CreateSnapshot?) <==>
        && (forall i :: 0 <= i < |snaps| ==> snaps[i].state != "pending")
        && (forall i :: 0 <= i < |snaps| && Kept(snaps[i], rc) ==> snaps[i].startTime < fc)
        && Epoch < fc
  {
    var snaps := env.listing.snapshots;
    var s := SurveyOf(snaps, env.now, settings.retention, env.failingDeletes);
    SurveyPending(snaps, env.now, settings.retention, env.failingDeletes);
    SurveyLatest(snaps, env.now, settings.retention, env.failingDeletes);
    var calls := [ListSnapshots(settings.item.volumeId)] + DeleteCalls(s.deleted);
    forall i | 0 <= i < |calls| ensures !calls[i].CreateSnapshot? {
      if i > 0 {
        assert calls[i] == DeleteCalls(s.deleted)[i - 1];
      }
    }
    var h := HandleItem(settings, processed, env);
    if s.latest < Cutoff(env.now, settings.frequency) && !s.pending {
      assert h.calls[|calls|].CreateSnapshot?;
    } else {
      assert h.calls == calls;
    }
  }

  /**
   * The handler raises, for a volume not seen before, exactly when the
   * survey raised, the listing failed, or the frequency cutoff is out of
   * range; by then it has listed the volume and sent the survey's
   * deletions, and it has neither created nor tagged a snapshot.
   */
  lemma RaisedRequests(settings: Settings, processed: set<string>, env: Responses)
    ensures var s := SurveyOf(env.listing.snapshots, env.now, settings.retention, env.failingDeletes);
      var h := HandleItem(settings, processed, env);
      && (h.raised <==>
            && settings.item.volumeId !in processed
            && (s.raised || env.listing.failed || Cutoff(env.now, settings.frequency) < MinTime))
      && (h.raised ==>
            && h.calls == [ListSnapshots(settings.item.volumeId)] + DeleteCalls(s.deleted)
            && h.metrics == s.metrics
            && forall i :: 0 <= i < |h.calls| ==> !h.calls[i].CreateSnapshot? && !h.calls[i].CreateTags?)
  {
    var s := SurveyOf(env.listing.snapshots, env.now, settings.retention, env.failingDeletes);
    var h := HandleItem(settings, processed, env);
    if h.raised {
      forall i | 0 <= i < |h.calls| ensures !h.calls[i].CreateSnapshot? && !h.calls[i].CreateTags? {
        if i > 0 {
          assert h.calls[i] == DeleteCalls(s.deleted)[i - 1];
        }
      }
    }
  }

  /**
   * When the handler completes for a volume not seen before, the requests
   * after the listing are one deletion per doomed snapshot, in order, and
   * the counters they bump come first, one per deletion.
   */
  lemma DeleteRequests(settings: Settings, processed: set<string>, env: Responses)
    requires settings.item.volumeId !in processed
    requires !HandleItem(settings, processed, env).raised
    ensures var doomed := DoomedIds(env.listing.snapshots, Cutoff(env.now, settings.retention));
      var h := HandleItem(settings, processed, env);
      && 1 + |doomed| <= |h.calls|
      && h.calls[1..1 + |doomed|] == DeleteCalls(doomed)
      && |doomed| <= |h.metrics|
      && forall i :: 0 <= i < |doomed| ==> h.metrics[i] == DeleteMetric(doomed[i], env.failingDeletes)
  {
    var s := SurveyOf(env.listing.snapshots, env.now, settings.retention, env.failingDeletes);
    SurveyDeletes(env.listing.snapshots, env.now, settings.retention, env.failingDeletes);
    var h := HandleItem(settings, processed, env);
    var calls := [ListSnapshots(settings.item.volumeId)] + DeleteCalls(s.deleted);
    assert calls[1..] == DeleteCalls(s.deleted);
    assert h.calls[..|calls|] == calls;
    assert h.metrics[..|s.metrics|] == s.metrics;
  }

  /**
   * When a snapshot is due, the handler asks for it with the description
   * naming the volume, instance and device, tags it (if EC2 answered) with
   * the four tags, and bumps exactly one counter: `SnapshotsCreated` when
   * both requests succeed, `SnapshotErrors` otherwise.
   */
  lemma CreateRequests(settings: Settings, processed: set<string>, env: Responses)
    requires settings.item.volumeId !in processed
    requires !HandleItem(settings, processed, env).raised
    ensures var s := SurveyOf(env.listing.snapshots, env.now, settings.retention, env.failingDeletes);
      var h := HandleItem(settings, processed, env);
      var item := settings.item;
      var k := 1 + |s.deleted|;
      |h.calls| > k ==>
        && h.calls[k] == CreateSnapshot(item.volumeId, Description(item))
        && h.calls[k + 1..] == (if env.createOk then [CreateTags(env.newSnapshotId, SnapshotTags(item))] else [])
        && h.metrics == s.metrics + [if env.createOk && env.tagsOk then SnapshotsCreated else SnapshotErrors]
  {
  }

  /** The new snapshot's `Name` tag joins the instance's name (or id) and the device, and its other tags say the same. */
  lemma TagsNameTheInstance(item: WorkItem)
    ensures var tags := SnapshotTags(item);
      && |tags| == 4
      && tags[0].key == "Name" && tags[0].value == tags[3].value + " drive " + tags[2].value
      && tags[1] == Tag("InstanceId", item.instanceId)
      && tags[2] == Tag("DeviceName", item.deviceName)
      && tags[3].key == "InstanceName"
      && ("Name" in item.instanceTags ==> tags[3].value == item.instanceTags["Name"])
      && ("Name" !in item.instanceTags ==> tags[3].value == item.instanceId)
  {
  }

  /** Expiry is strict: a snapshot exactly at the cutoff is kept, one a microsecond older is deleted. */
  lemma ExpiryBoundary(id: string, now: int, retention: nat)
    ensures var cutoff := Cutoff(now, retention);
      && Kept(Snapshot(id, "completed", cutoff), cutoff) && !Doomed(Snapshot(id, "completed", cutoff), cutoff)
      && Doomed(Snapshot(id, "completed", cutoff - 1), cutoff)
  {
  }
}
