/**
 * `check_instances`: pages through the instances that carry the frequency
 * tag, splits each instance's tags, and sends one work item per attached
 * EBS volume to the volume queue. EC2's answers are a script of outcomes,
 * one per `DescribeInstances` call; the queue and the metrics become the
 * sequences the scan returns.
 */
module Scanner {
  import opened Wrappers
  import opened Messages

  /** How many times one page is requested before the error is let through. */
  const MaxRetries: nat := 5

  /** The environment the Lambda runs with: the two tag names and the default retention. */
  datatype Config = Config(frequencyTag: string, retentionTag: string, defaultRetention: string)

  datatype Ebs = Ebs(status: string, volumeId: string)

  /** A block-device mapping; `ebs` is absent for instance-store devices. */
  datatype Mapping = Mapping(deviceName: string, ebs: Option<Ebs>)

  datatype Instance = Instance(instanceId: string, tags: seq<Tag>, mappings: seq<Mapping>)

  datatype Reservation = Reservation(instances: seq<Instance>)

  /** One `DescribeInstances` answer; an empty `nextToken` stands for a missing or empty one. */
  datatype Page = Page(reservations: seq<Reservation>, nextToken: string)

  // ---------------------------------------------------------------------
  // Splitting the tags of an instance
  // ---------------------------------------------------------------------

  /** The value of the last tag with this key: a later tag overwrites an earlier one in a dictionary. */
  function LastValue(tags: seq<Tag>, key: string): Option<string>
    decreases |tags|
  {
    if tags == [] then None
    else if tags[|tags| - 1].key == key then Some(tags[|tags| - 1].value)
    else LastValue(tags[..|tags| - 1], key)
  }

  /** A key has a value exactly when some tag has that key. */
  lemma {:induction false} LastValueFound(tags: seq<Tag>, key: string)
    ensures LastValue(tags, key).Some? <==> exists i :: 0 <= i < |tags| && tags[i].key == key
    decreases |tags|
  {
    if tags != [] {
      var n := |tags| - 1;
      var front := tags[..n];
      if tags[n].key != key {
        LastValueFound(front, key);
        if LastValue(front, key).Some? {
          var i :| 0 <= i < |front| && front[i].key == key;
          assert tags[i] == front[i];
        } else {
          forall i | 0 <= i < |tags| ensures tags[i].key != key {
            if i < n {
              assert tags[i] == front[i];
            }
          }
        }
      }
    }
  }

  /** The value found is that of a tag with the key, and no later tag has the key. */
  lemma {:induction false} LastValueIsLast(tags: seq<Tag>, key: string)
    requires LastValue(tags, key).Some?
    ensures exists i :: 0 <= i < |tags| && tags[i] == Tag(key, LastValue(tags, key).value) && forall j :: i < j < |tags| ==> tags[j].key != key
    decreases |tags|
  {
    var n := |tags| - 1;
    var front := tags[..n];
    if tags[n].key != key {
      LastValueIsLast(front, key);
      var i :| 0 <= i < |front| && front[i] == Tag(key, LastValue(front, key).value) &&
        forall j :: i < j < |front| ==> front[j].key != key;
      assert tags[i] == front[i];
      assert forall j :: i < j < n ==> tags[j] == front[j];
    }
  }

  function KeysOf(tags: seq<Tag>): set<string> {
    set t | t in tags :: t.key
  }

  /** The `Frequency` of the work items: the frequency tag, if any. */
  function FrequencyOf(tags: seq<Tag>, config: Config): Option<string> {
    LastValue(tags, config.frequencyTag)
  }

  /**
   * The `Retention` of the work items: the retention tag, or the default.
   * A retention tag name equal to the frequency tag name is never read as
   * the retention tag, because the frequency test comes first.
   */
  function RetentionOf(tags: seq<Tag>, config: Config): string {
    if config.retentionTag == config.frequencyTag then config.defaultRetention
    else LastValue(tags, config.retentionTag).GetOr(config.defaultRetention)
  }

  /**
   * The retention is the default when no tag has the retention key, and
   * otherwise the value of the last such tag, unless the two tag names are
   * the same.
   */
  lemma RetentionFallsBack(tags: seq<Tag>, config: Config)
    ensures (forall i :: 0 <= i < |tags| ==> tags[i].key != config.retentionTag) ==>
      RetentionOf(tags, config) == config.defaultRetention
    ensures config.retentionTag != config.frequencyTag && (exists i :: 0 <= i < |tags| && tags[i].key == config.retentionTag) ==>
      LastValue(tags, config.retentionTag).Some? && RetentionOf(tags, config) == LastValue(tags, config.retentionTag).value
  {
    LastValueFound(tags, config.retentionTag);
  }

  /** The `InstanceTags` of the work items: every other tag, with its last value. */
  function InstanceTagsOf(tags: seq<Tag>, config: Config): map<string, string> {
    map k | k in KeysOf(tags) && k != config.frequencyTag && k != config.retentionTag :: LastValue(tags, k).GetOr("")
  }

  /** Reading one more tag changes the tag dictionary as the loop body does. */
  lemma InstanceTagsStep(tags: seq<Tag>, i: nat, config: Config)
    requires i < |tags|
    ensures var t := tags[i];
      InstanceTagsOf(tags[..i + 1], config) ==
        if t.key == config.frequencyTag || t.key == config.retentionTag then InstanceTagsOf(tags[..i], config)
        else InstanceTagsOf(tags[..i], config)[t.key := t.value]
  {
    var t := tags[i];
    var front, longer := tags[..i], tags[..i + 1];
    assert longer[..i] == front;
    assert KeysOf(longer) == KeysOf(front) + {t.key} by {
      assert longer == front + [t];
    }
  }

  /**
   * The loop over the tags of one instance: the frequency and retention
   * tags go to their own keys, every other tag to `InstanceTags`, and the
   * retention falls back to the default.
   */
  method SplitInstanceTags(tags: seq<Tag>, config: Config) returns (frequency: Option<string>, retention: string, instanceTags: map<string, string>)
    ensures frequency == FrequencyOf(tags, config)
    ensures retention == RetentionOf(tags, config)
    ensures instanceTags == InstanceTagsOf(tags, config)
  {
    frequency := None;
    var retentionTag: Option<string> := None;
    instanceTags := map[];
    for i := 0 to |tags|
      invariant frequency == LastValue(tags[..i], config.frequencyTag)
      invariant retentionTag == if config.retentionTag == config.frequencyTag then None else LastValue(tags[..i], config.retentionTag)
      invariant instanceTags == InstanceTagsOf(tags[..i], config)
    {
      var t := tags[i];
      assert tags[..i + 1][..i] == tags[..i];
      InstanceTagsStep(tags, i, config);
      if t.key == config.frequencyTag {
        frequency := Some(t.value);
      } else if t.key == config.retentionTag {
        retentionTag := Some(t.value);
      } else {
        instanceTags := instanceTags[t.key := t.value];
      }
    }
    assert tags[..|tags|] == tags;
    retention := retentionTag.GetOr(config.defaultRetention);
  }

  /** Neither tag name is ever a key of `InstanceTags`, and every other tag of the instance is. */
  lemma InstanceTagsKeys(tags: seq<Tag>, config: Config)
    ensures config.frequencyTag !in InstanceTagsOf(tags, config)
    ensures config.retentionTag !in InstanceTagsOf(tags, config)
    ensures forall t :: t in tags && t.key != config.frequencyTag && t.key != config.retentionTag ==>
      t.key in InstanceTagsOf(tags, config) && LastValue(tags, t.key).Some? &&
      InstanceTagsOf(tags, config)[t.key] == LastValue(tags, t.key).value
  {
    forall t | t in tags && t.key != config.frequencyTag && t.key != config.retentionTag
      ensures LastValue(tags, t.key).Some?
    {
      var i :| 0 <= i < |tags| && tags[i] == t;
      LastValueFound(tags, t.key);
    }
  }

  // ---------------------------------------------------------------------
  // Work items of one instance
  // ---------------------------------------------------------------------

  /** Only EBS mappings whose volume is attached are queued. */
  predicate Attached(m: Mapping) {
    m.ebs.Some? && m.ebs.value.status == "attached"
  }

  /** The work item for one attached mapping of an instance. */
  function ItemFor(inst: Instance, config: Config, m: Mapping): WorkItem
    requires Attached(m)
  {
    WorkItem(inst.instanceId, FrequencyOf(inst.tags, config), RetentionOf(inst.tags, config),
      InstanceTagsOf(inst.tags, config), m.deviceName, m.ebs.value.volumeId)
  }

  /** The work items for the mappings `ms` of `inst`. */
  function MappingItems(inst: Instance, config: Config, ms: seq<Mapping>): seq<WorkItem>
    decreases |ms|
  {
    if ms == [] then []
    else
      var m := ms[|ms| - 1];
      MappingItems(inst, config, ms[..|ms| - 1]) + if Attached(m) then [ItemFor(inst, config, m)] else []
  }

  /** Every work item an instance yields. */
  function ItemsOf(inst: Instance, config: Config): seq<WorkItem> {
    MappingItems(inst, config, inst.mappings)
  }

  /** Work items come out in mapping order: the items of two runs of mappings are the items of each, one after the other. */
  lemma {:induction false} MappingItemsAppend(inst: Instance, config: Config, ms: seq<Mapping>, ns: seq<Mapping>)
    ensures MappingItems(inst, config, ms + ns) == MappingItems(inst, config, ms) + MappingItems(inst, config, ns)
    decreases |ns|
  {
    if ns == [] {
      assert ms + ns == ms;
    } else {
      var n := |ns| - 1;
      assert (ms + ns)[..|ms + ns| - 1] == ms + ns[..n];
      MappingItemsAppend(inst, config, ms, ns[..n]);
    }
  }

  /** There are as many work items as attached mappings. */
  lemma {:induction false} MappingItemsCount(inst: Instance, config: Config, ms: seq<Mapping>)
    ensures |MappingItems(inst, config, ms)| == |set i | 0 <= i < |ms| && Attached(ms[i])|
    decreases |ms|
  {
    if ms != [] {
      var n := |ms| - 1;
      var front := ms[..n];
      MappingItemsCount(inst, config, front);
      var before := set i | 0 <= i < |front| && Attached(front[i]);
      var after := set i | 0 <= i < |ms| && Attached(ms[i]);
      assert forall i :: 0 <= i < n ==> front[i] == ms[i];
      if Attached(ms[n]) {
        assert after == before + {n};
      } else {
        assert after == before;
      }
    }
  }

  /** Each work item is the item of an attached mapping. */
  lemma {:induction false} MappingItemsSound(inst: Instance, config: Config, ms: seq<Mapping>)
    ensures forall it :: it in MappingItems(inst, config, ms) ==> exists m :: m in ms && Attached(m) && it == ItemFor(inst, config, m)
    decreases |ms|
  {
    if ms != [] {
      var n := |ms| - 1;
      var front := ms[..n];
      MappingItemsSound(inst, config, front);
      assert forall m :: m in front ==> m in ms;
    }
  }

  /** Each attached mapping has its work item. */
  lemma {:induction false} MappingItemsComplete(inst: Instance, config: Config, ms: seq<Mapping>)
    ensures forall m :: m in ms && Attached(m) ==> ItemFor(inst, config, m) in MappingItems(inst, config, ms)
    decreases |ms|
  {
    if ms != [] {
      var n := |ms| - 1;
      var front := ms[..n];
      MappingItemsComplete(inst, config, front);
      assert ms == front + [ms[n]];
    }
  }

  /** Every work item of an instance carries the instance's id and its split tags. */
  lemma ItemsShareInstance(inst: Instance, config: Config)
    ensures forall it :: it in ItemsOf(inst, config) ==>
      it.instanceId == inst.instanceId && it.frequency == FrequencyOf(inst.tags, config) &&
      it.retention == RetentionOf(inst.tags, config) && it.instanceTags == InstanceTagsOf(inst.tags, config)
  {
    MappingItemsSound(inst, config, inst.mappings);
  }

  /** The handling of one instance: split its tags, then queue one item per attached volume. */
  method InstanceWorkItems(inst: Instance, config: Config) returns (items: seq<WorkItem>)
    ensures items == ItemsOf(inst, config)
  {
    var frequency, retention, instanceTags := SplitInstanceTags(inst.tags, config);
    items := [];
    for i := 0 to |inst.mappings|
      invariant items == MappingItems(inst, config, inst.mappings[..i])
    {
      var m := inst.mappings[i];
      assert inst.mappings[..i + 1][..i] == inst.mappings[..i];
      if m.ebs.Some? {
        if m.ebs.value.status != "attached" {
          continue;
        }
        items := items + [WorkItem(inst.instanceId, frequency, retention, instanceTags, m.deviceName, m.ebs.value.volumeId)];
      }
    }
    assert inst.mappings[..|inst.mappings|] == inst.mappings;
  }

  // ---------------------------------------------------------------------
  // Work items and metrics of a page
  // ---------------------------------------------------------------------

  function InstancesItems(insts: seq<Instance>, config: Config): seq<WorkItem>
    decreases |insts|
  {
    if insts == [] then [] else InstancesItems(insts[..|insts| - 1], config) + ItemsOf(insts[|insts| - 1], config)
  }

  function ReservationsItems(rs: seq<Reservation>, config: Config): seq<WorkItem>
    decreases |rs|
  {
    if rs == [] then [] else ReservationsItems(rs[..|rs| - 1], config) + InstancesItems(rs[|rs| - 1].instances, config)
  }

  /** Everything a page queues, instance after instance. */
  function PageItems(page: Page, config: Config): seq<WorkItem> {
    ReservationsItems(page.reservations, config)
  }

  /** The `InstancesProcessed` values a page reports: one per reservation, counting its instances. */
  function PageCounts(page: Page): (r: seq<nat>)
    ensures |r| == |page.reservations|
  {
    seq(|page.reservations|, i requires 0 <= i < |page.reservations| => |page.reservations[i].instances|)
  }

  /** The loop over the instances of one reservation. */
  method HandleReservation(r: Reservation, config: Config) returns (items: seq<WorkItem>, processed: nat)
    ensures items == InstancesItems(r.instances, config)
    ensures processed == |r.instances|
  {
    items := [];
    processed := 0;
    for j := 0 to |r.instances|
      invariant items == InstancesItems(r.instances[..j], config)
      invariant processed == j
    {
      var more := InstanceWorkItems(r.instances[j], config);
      assert r.instances[..j + 1][..j] == r.instances[..j];
      items := items + more;
      processed := processed + 1;
    }
    assert r.instances[..|r.instances|] == r.instances;
  }

  /** The loop over the reservations of one page, with one metric per reservation. */
  method HandlePage(page: Page, config: Config) returns (items: seq<WorkItem>, counts: seq<nat>)
    ensures items == PageItems(page, config)
    ensures counts == PageCounts(page)
  {
    var rs := page.reservations;
    items := [];
    counts := [];
    for i := 0 to |rs|
      invariant items == ReservationsItems(rs[..i], config)
      invariant counts == PageCounts(Page(rs[..i], page.nextToken))
    {
      var more, processed := HandleReservation(rs[i], config);
      assert rs[..i + 1][..i] == rs[..i];
      items := items + more;
      counts := counts + [processed];
    }
    assert rs[..|rs|] == rs;
  }

  // ---------------------------------------------------------------------
  // Retrying one page request
  // ---------------------------------------------------------------------

  /** What one `DescribeInstances` call does: raise, or answer with a page. */
  datatype Outcome = Raised | Answered(page: Page)

  /**
   * The result of requesting one page, with the number of calls `used`:
   * the page, the error let through after the last retry, or the end of the
   * script (what EC2 does next is not known).
   */
  datatype Fetch = Fetched(page: Page, used: nat) | GaveUp(used: nat) | ScriptEnded(used: nat)

  /**
   * Requesting a page first requested at `script[start]`, after `retry`
   * calls that raised: the call at `script[start + retry]` is the next.
   */
  function FetchAt(script: seq<Outcome>, start: nat, retry: nat): (f: Fetch)
    requires start + retry <= |script| && retry < MaxRetries
    ensures start + f.used <= |script|
    ensures f.Fetched? ==> retry < f.used
    decreases MaxRetries - retry
  {
    if start + retry == |script| then ScriptEnded(retry)
    else match script[start + retry]
      case Answered(p) => Fetched(p, retry + 1)
      case Raised => if retry == MaxRetries - 1 then GaveUp(retry + 1) else FetchAt(script, start, retry + 1)
  }

  /** Requesting a page from the first attempt. */
  function FetchPage(script: seq<Outcome>, pos: nat): (f: Fetch)
    requires pos <= |script|
    ensures pos + f.used <= |script|
    ensures f.Fetched? ==> 0 < f.used
  {
    FetchAt(script, pos, 0)
  }

  /**
   * A page arrives after at most five calls, all but the last of which
   * raised; the scan gives up only after five calls in a row raised; and
   * the script ends only when every call before its end raised.
   */
  lemma {:induction false} FetchAtSpec(script: seq<Outcome>, start: nat, retry: nat)
    requires start + retry <= |script| && retry < MaxRetries
    ensures var f := FetchAt(script, start, retry);
      && retry <= f.used <= MaxRetries
      && (forall j :: start <= j < start + f.used - 1 && start + retry <= j ==> script[j] == Raised)
      && (f.Fetched? ==> script[start + f.used - 1] == Answered(f.page))
      && (f.GaveUp? ==> f.used == MaxRetries && script[start + f.used - 1] == Raised)
      && (f.ScriptEnded? ==> start + f.used == |script| && f.used < MaxRetries)
      && (f.ScriptEnded? ==> forall j :: start + retry <= j < |script| ==> script[j] == Raised)
    decreases MaxRetries - retry
  {
    if start + retry < |script| && script[start + retry] == Raised && retry < MaxRetries - 1 {
      FetchAtSpec(script, start, retry + 1);
    }
  }

  /** The retry loop around one `DescribeInstances` call. */
  method DescribeWithRetry(script: seq<Outcome>, pos: nat) returns (f: Fetch)
    requires pos <= |script|
    ensures f == FetchPage(script, pos)
  {
    var retry := 0;
    while true
      invariant retry < MaxRetries && pos + retry <= |script|
      invariant FetchPage(script, pos) == FetchAt(script, pos, retry)
      decreases MaxRetries - retry
    {
      if pos + retry == |script| {
        return ScriptEnded(retry);
      }
      match script[pos + retry]
      case Answered(p) =>
        return Fetched(p, retry + 1);
      case Raised =>
        if retry == MaxRetries - 1 {
          return GaveUp(retry + 1);
        }
        retry := retry + 1;
    }
  }

  // ---------------------------------------------------------------------
  // Pagination
  // ---------------------------------------------------------------------

  datatype Status = Completed | Aborted | OutOfScript

  /**
   * The course of a scan: the `NextToken` argument of each page request
   * (empty for the first), the pages received, the number of calls made,
   * and how the scan ended.
   */
  datatype Scan = Scan(tokens: seq<string>, pages: seq<Page>, calls: nat, status: Status)

  /** The scan from `script[pos]`, requesting the page after `token`. */
  function ScanFrom(script: seq<Outcome>, pos: nat, token: string): (s: Scan)
    requires pos <= |script|
    ensures pos + s.calls <= |script|
    decreases |script| - pos
  {
    match FetchPage(script, pos)
    case GaveUp(n) => Scan([token], [], n, Aborted)
    case ScriptEnded(n) => Scan([token], [], n, OutOfScript)
    case Fetched(p, n) =>
      if p.nextToken == "" then Scan([token], [p], n, Completed)
      else
        var rest := ScanFrom(script, pos + n, p.nextToken);
        Scan([token] + rest.tokens, [p] + rest.pages, n + rest.calls, rest.status)
  }

  /** The whole scan: the first request carries no token. */
  function ScanOf(script: seq<Outcome>): Scan {
    ScanFrom(script, 0, "")
  }

  /**
   * Pagination follows the tokens: the first request carries none, each
   * later request carries the non-empty token of the page before it, and
   * a completed scan ends on a page without a token.
   */
  lemma {:induction false} ScanFromTokens(script: seq<Outcome>, pos: nat, token: string)
    requires pos <= |script|
    ensures var s := ScanFrom(script, pos, token); s.tokens != [] && s.tokens[0] == token && Chained(s)
    decreases |script| - pos
  {
    match FetchPage(script, pos)
    case Fetched(p, n) =>
      if p.nextToken != "" {
        var rest := ScanFrom(script, pos + n, p.nextToken);
        ScanFromTokens(script, pos + n, p.nextToken);
        TokensPrepended(rest, token, p);
      }
    case _ =>
  }

  /**
   * Each request after the first carries the token of the page before it,
   * which is not empty, there is one more request than pages unless the
   * scan completed, and a completed scan ends on a page without a token.
   */
  predicate Chained(s: Scan) {
    && |s.tokens| == |s.pages| + (if s.status == Completed then 0 else 1)
    && (forall i :: 0 < i < |s.tokens| ==> s.tokens[i] == s.pages[i - 1].nextToken != "")
    && (s.status == Completed ==> s.pages != [] && s.pages[|s.pages| - 1].nextToken == "")
  }

  /** Putting one more page with a token in front of a chained scan keeps it chained. */
  lemma TokensPrepended(rest: Scan, token: string, page: Page)
    requires page.nextToken != "" && rest.tokens != [] && rest.tokens[0] == page.nextToken
    requires Chained(rest)
    ensures Chained(Scan([token] + rest.tokens, [page] + rest.pages, 0, rest.status))
  {
    var tokens, pages := [token] + rest.tokens, [page] + rest.pages;
    forall i | 0 < i < |tokens| ensures tokens[i] == pages[i - 1].nextToken != "" {
      if i > 1 {
        assert tokens[i] == rest.tokens[i - 1] && pages[i - 1] == rest.pages[i - 2];
      }
    }
  }

  /** A scan is aborted only after the last five calls it made all raised. */
  lemma {:induction false} ScanFromAborted(script: seq<Outcome>, pos: nat, token: string)
    requires pos <= |script|
    ensures var s := ScanFrom(script, pos, token);
      s.status == Aborted ==> MaxRetries <= s.calls && forall j :: pos + s.calls - MaxRetries <= j < pos + s.calls ==> script[j] == Raised
    decreases |script| - pos
  {
    var f := FetchPage(script, pos);
    FetchAtSpec(script, pos, 0);
    if f.Fetched? && f.page.nextToken != "" {
      ScanFromAborted(script, pos + f.used, f.page.nextToken);
    }
  }

  /**
   * The scan as the loop carries it out: `tokens` requested and `pages`
   * received so far, `pos` calls made, and the page after `token` asked
   * for next.
   */
  function ScanOn(script: seq<Outcome>, pos: nat, token: string, tokens: seq<string>, pages: seq<Page>): Scan
    requires pos <= |script|
    decreases |script| - pos
  {
    match FetchPage(script, pos)
    case GaveUp(n) => Scan(tokens + [token], pages, pos + n, Aborted)
    case ScriptEnded(n) => Scan(tokens + [token], pages, pos + n, OutOfScript)
    case Fetched(p, n) =>
      if p.nextToken == "" then Scan(tokens + [token], pages + [p], pos + n, Completed)
      else ScanOn(script, pos + n, p.nextToken, tokens + [token], pages + [p])
  }

  /** Carrying the scan out page by page ends where the scan from the same point goes. */
  lemma {:induction false} ScanOnJoined(script: seq<Outcome>, pos: nat, token: string, tokens: seq<string>, pages: seq<Page>)
    requires pos <= |script|
    ensures ScanOn(script, pos, token, tokens, pages) == Joined(tokens, pages, pos, ScanFrom(script, pos, token))
    decreases |script| - pos
  {
    match FetchPage(script, pos)
    case Fetched(p, n) =>
      if p.nextToken != "" {
        var rest := ScanFrom(script, pos + n, p.nextToken);
        ScanOnJoined(script, pos + n, p.nextToken, tokens + [token], pages + [p]);
        assert tokens + ([token] + rest.tokens) == tokens + [token] + rest.tokens;
        assert pages + ([p] + rest.pages) == pages + [p] + rest.pages;
      } else {
        assert ScanFrom(script, pos, token) == Scan([token], [p], n, Completed);
      }
    case GaveUp(n) =>
      assert pages + [] == pages;
    case ScriptEnded(n) =>
      assert pages + [] == pages;
  }

  /**
   * `check_instances`: request pages, retrying each, until a page comes
   * back without a token; the work items of each page are queued and one
   * `InstancesProcessed` metric is reported per reservation before the next
   * page is requested.
   */
  method CheckInstances(script: seq<Outcome>, config: Config) returns (scan: Scan, sent: seq<WorkItem>, metrics: seq<nat>)
    ensures scan == ScanOf(script)
    ensures sent == PagesItems(scan.pages, config)
    ensures metrics == PagesCounts(scan.pages)
  {
    var pos := 0;
    var token := "";
    var tokens: seq<string> := [];
    var pages: seq<Page> := [];
    sent, metrics := [], [];
    assert ScanOf(script) == ScanOn(script, 0, "", [], []) by {
      ScanOnJoined(script, 0, "", [], []);
    }
    while true
      invariant pos <= |script|
      invariant ScanOn(script, 0, "", [], []) == ScanOn(script, pos, token, tokens, pages)
      invariant sent == PagesItems(pages, config)
      invariant metrics == PagesCounts(pages)
      decreases |script| - pos
    {
      var f := DescribeWithRetry(script, pos);
      if !f.Fetched? {
        return Scan(tokens + [token], pages, pos + f.used, if f.GaveUp? then Aborted else OutOfScript), sent, metrics;
      }
      sent, metrics := QueuePage(pages, f.page, config, sent, metrics);
      if f.page.nextToken == "" {
        return Scan(tokens + [token], pages + [f.page], pos + f.used, Completed), sent, metrics;
      }
      tokens, pages, pos, token := tokens + [token], pages + [f.page], pos + f.used, f.page.nextToken;
    }
  }

  /** Queueing the work items of one more page and reporting its counts. */
  method QueuePage(pages: seq<Page>, page: Page, config: Config, sent: seq<WorkItem>, metrics: seq<nat>)
    returns (sent': seq<WorkItem>, metrics': seq<nat>)
    requires sent == PagesItems(pages, config) && metrics == PagesCounts(pages)
    ensures sent' == PagesItems(pages + [page], config)
    ensures metrics' == PagesCounts(pages + [page])
  {
    var items, counts := HandlePage(page, config);
    PagesAppend(pages, page, config);
    sent', metrics' := sent + items, metrics + counts;
  }

  /** The scan whose first requests and pages are `tokens` and `pages`, after `calls` calls, and which goes on as `rest`. */
  function Joined(tokens: seq<string>, pages: seq<Page>, calls: nat, rest: Scan): Scan {
    Scan(tokens + rest.tokens, pages + rest.pages, calls + rest.calls, rest.status)
  }

  /** Everything the scan queued, page after page. */
  function PagesItems(pages: seq<Page>, config: Config): seq<WorkItem>
    decreases |pages|
  {
    if pages == [] then [] else PagesItems(pages[..|pages| - 1], config) + PageItems(pages[|pages| - 1], config)
  }

  /** Every `InstancesProcessed` value the scan reported, page after page. */
  function PagesCounts(pages: seq<Page>): seq<nat>
    decreases |pages|
  {
    if pages == [] then [] else PagesCounts(pages[..|pages| - 1]) + PageCounts(pages[|pages| - 1])
  }

  lemma PagesAppend(pages: seq<Page>, page: Page, config: Config)
    ensures PagesItems(pages + [page], config) == PagesItems(pages, config) + PageItems(page, config)
    ensures PagesCounts(pages + [page]) == PagesCounts(pages) + PageCounts(page)
  {
    assert (pages + [page])[..|pages|] == pages;
  }
}
