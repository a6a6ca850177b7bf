# EBS Snapshot Manager, modelled in Dafny

The snapshot manager is an AWS Lambda (`ebs_snapshot_manager.py`) with two
entry points:

- `check_instances` pages through the EC2 instances that carry a frequency
  tag. It sends one work item per attached EBS volume to an SQS queue.
- `check_volumes` drains that queue. For each volume it deletes failed and
  expired snapshots. It then creates and tags a new snapshot when the latest
  one is older than the frequency and none is in progress.

Frequencies and retentions are duration strings, read by
`parse_duration_string`.

The model has these modules:

- `Duration` (`duration.dfy`) is the parser, as functions over `string`. It
  covers `str.strip()`, the two regular expressions matched as prefixes, the
  digit groups, the unit arithmetic and the `timedelta` limits. Lemmas state
  what strings of each form parse to.
- `Messages` (`messages.dfy`) holds the tag and the work item, which is the
  body of a queue message.
- `Scanner` (`scanner.dfy`) is `check_instances`. Its loops are methods:
  - the tag loop;
  - the block-device mapping loop;
  - the reservation and instance loops;
  - the retry loop;
  - the pagination loop.

  Each method is proved equal to a specification function. EC2's answers
  are a script of outcomes. The queue and the `InstancesProcessed` metric
  are the sequences the scan returns.
- `Volumes` (`volumes.dfy`) is `handle_volume_message`. It covers dedup, the
  snapshot survey loop, deletion, the create decision and the new
  snapshot's tags. EC2's behaviour is a `Responses` value. What the handler
  asks of EC2 and CloudWatch is returned as a list of calls and counters.
- `Drain` (`drain.dfy`) is the `check_volumes` loop. It threads one set of
  processed volumes through every message, and deletes and counts every
  message.
- `Wrappers` (`wrappers.dfy`) is `Option` and `Result`.

Units and representations:

- Durations are whole hours.
- Instants are whole microseconds since 1970-01-01, in naive UTC.
- `datetime` arithmetic that would go below 0001-01-01 raises in Python, and
  is modelled as raising.
- A `timedelta` of more than 999 999 999 days overflows.

Behaviour of the code that the model keeps, some of it surprising:

- Both regular expressions are matched as a prefix. Text after the match is
  ignored: `P1WT3H` is one week, `14days` is 14 days and `1d12h30m` is 36
  hours.
- A stripped string that starts with `P` is decided by the ISO grammar
  alone.
- Every other string matches the simplified grammar, at worst with the empty
  prefix. So the "cannot parse" branch is never taken. Strings such as `""`,
  `"abc"`, `"P"` and `"P1d"` fail as a zero duration.
- The `InstancesProcessed` metric is reported once per reservation, counting
  that reservation's instances. The code does this; it is not once per page.
- When the retention tag name equals the frequency tag name, the tag is read
  as the frequency. The retention is then the default.

## Model

| member | source | states |
|---|---|---|
| Duration.Strip | ebs_snapshot_manager.py:77 | the stripped string begins and ends with a visible character, and is empty only when the input is all white space |
| Duration.StripTrims | ebs_snapshot_manager.py:77 | the stripped string is a slice of the input, and only white space lies before and after that slice |
| Duration.StripPadded | ebs_snapshot_manager.py:77 | white space added around a string does not change what is parsed |
| Duration.GroupMatches | ebs_snapshot_manager.py:31-35 | an optional group `(?:([0-9]+)L)?` takes the maximal digit run and its letter, with the digits' value; when it does not take part, no digit run at the front is followed by the letter |
| Duration.IsoMatch | ebs_snapshot_manager.py:29-37 | the ISO expression matches exactly the strings that start with `P`, and a `#W` match has no other field |
| Duration.IsoDateTime | ebs_snapshot_manager.py:32-35 | the second ISO alternative never reads weeks |
| Duration.SimplifiedMatch | ebs_snapshot_manager.py:38-43 | the simplified expression matches every string and never reads years or months |
| Duration.MatchPeriod | ebs_snapshot_manager.py:78-82 | one of the two grammars always matches; a string that starts with `P` is decided by the ISO grammar; any other has no years or months |
| Duration.Checked | ebs_snapshot_manager.py:93-96 | a total is accepted exactly when it is positive and under the `timedelta` limit |
| Duration.ParseDuration | ebs_snapshot_manager.py:65-98 | a parsed duration is positive and within the `timedelta` limit, and parsing never fails because nothing matched |
| Duration.ZeroWhenAllEmpty | ebs_snapshot_manager.py:84-96 | the zero-duration error is raised exactly when every field read is zero |
| Duration.Decimal | ebs_snapshot_manager.py:85-89 | decimal digits written for `n` are read back by `int()` as `n` |
| Duration.IsoTextMatches | ebs_snapshot_manager.py:29-37 | `P#Y#M#DT#H` with any of its elements omitted, followed by text that does not continue it, is read by the ISO grammar as the elements given, an omitted one as 0 |
| Duration.WeeksTextMatches | ebs_snapshot_manager.py:29-31 | `P#W` followed by anything is read as weeks alone |
| Duration.SimplifiedTextMatches | ebs_snapshot_manager.py:38-43 | `#w #d #h` with any of its elements omitted, in either case, with white space before and between the tokens, followed by any text that does not continue it (no digit after omitted hours, no `P` when every element is omitted), is read as the elements given, an omitted one as 0 |
| Duration.SimplifiedIgnoresTrailing | ebs_snapshot_manager.py:38-43 | white space after the text does not change what the simplified grammar reads |
| Duration.ParseAfterSpace | ebs_snapshot_manager.py:77 | white space in front of a string does not change what it parses to |
| Duration.ParseIsoText | ebs_snapshot_manager.py:65-98 | `P#Y#M#DT#H` with any of its elements omitted, followed by text that does not continue it, parses to the checked total of the elements given |
| Duration.ParseIsoPrefix | ebs_snapshot_manager.py:77-98 | an ISO duration ending in a visible character, followed by any text, parses to the checked total of what the ISO grammar reads |
| Duration.ParseWeeksText | ebs_snapshot_manager.py:29-31 | `P#W` with any text after it parses to that many weeks |
| Duration.ParseSimplifiedText | ebs_snapshot_manager.py:38-43 | `#w #d #h` with any of its elements omitted, with either case of unit letter, with white space before and between the tokens and followed by any text that does not continue it, parses to the checked total of the elements given |
| Duration.ParseNoNumber | ebs_snapshot_manager.py:78-96 | a string whose stripped form starts with neither `P` nor a digit is refused as a zero duration |
| Duration.ParseIsoLowerCase | ebs_snapshot_manager.py:29-37 | ISO unit letters are upper case only, so `P#d` is refused as a zero duration |
| Duration.ParseDaysOnly | ebs_snapshot_manager.py:12 | `#d` or `#D` alone, as in the default retention `14d`, parses to that many days |
| Duration.ParseDaysThenText | ebs_snapshot_manager.py:38-43 | `#d` followed by text with no digit after its leading white space, as in `14days`, parses to that many days: the rest of the text is ignored |
| Duration.ParseDaysHoursThenText | ebs_snapshot_manager.py:38-43 | `#d#h` followed by any text, as in `1d12h30m`, parses to those days and hours: the grammar ends at the hours |
| Duration.ParseYearsOnly | ebs_snapshot_manager.py:75 | `P#Y` alone parses to that many 365-day years |
| Duration.ParseIsoDaysOnly | ebs_snapshot_manager.py:34 | `P#D` alone parses to that many days |
| Duration.ParseHoursOnly | ebs_snapshot_manager.py:35 | `PT#H`, every date element omitted, parses to that many hours |
| Duration.ParseWeekThenHours | ebs_snapshot_manager.py:29-37 | in `P#WT#H` the text after the week is ignored: the result is the weeks alone |
| Duration.ParseOneYear | ebs_snapshot_manager.py:75 | `P1Y` is 8760 hours |
| Duration.ParseOneDay | ebs_snapshot_manager.py:34 | `P1D` is 24 hours |
| Duration.ParseZeroDays | ebs_snapshot_manager.py:95-96 | `P0D` is refused as not positive |
| Duration.ParseFourteenDays | ebs_snapshot_manager.py:12 | the default retention `14d` is 336 hours |
| Duration.ParseFourteenDaysSpelledOut | ebs_snapshot_manager.py:38-43 | `14days` is 336 hours, read as its prefix `14d` |
| Duration.ParseDayHoursMinutes | ebs_snapshot_manager.py:38-43 | `1d12h30m` is 36 hours: the minutes are ignored |
| Duration.ParseOneWeek | ebs_snapshot_manager.py:31 | `P1W` is 168 hours |
| Scanner.LastValueFound | ebs_snapshot_manager.py:137-146 | a key gets a value exactly when some tag has that key |
| Scanner.LastValueIsLast | ebs_snapshot_manager.py:137-146 | the value kept for a key is that of a tag with the key, and no later tag has the key |
| Scanner.RetentionFallsBack | ebs_snapshot_manager.py:143-151 | the retention is the default when no tag has the retention key, and otherwise the last such tag's value |
| Scanner.InstanceTagsStep | ebs_snapshot_manager.py:141-146 | one more tag changes the tag dictionary exactly as the loop body does |
| Scanner.SplitInstanceTags | ebs_snapshot_manager.py:135-151 | the tag loop yields the frequency tag, the retention tag or default, and the dictionary of every other tag |
| Scanner.InstanceTagsKeys | ebs_snapshot_manager.py:137-148 | neither tag name is a key of `InstanceTags`, and every other tag key is, with its last value |
| Scanner.MappingItemsAppend | ebs_snapshot_manager.py:153-163 | work items come out in mapping order |
| Scanner.MappingItemsCount | ebs_snapshot_manager.py:153-163 | there are exactly as many work items as attached EBS mappings |
| Scanner.MappingItemsSound | ebs_snapshot_manager.py:153-163 | every work item belongs to an attached EBS mapping and carries its device name and volume id |
| Scanner.MappingItemsComplete | ebs_snapshot_manager.py:153-163 | every attached EBS mapping has its work item |
| Scanner.ItemsShareInstance | ebs_snapshot_manager.py:132-151 | every work item of an instance carries its id, frequency, retention and other tags |
| Scanner.InstanceWorkItems | ebs_snapshot_manager.py:131-163 | the mapping loop queues one item per attached mapping and skips the others |
| Scanner.HandleReservation | ebs_snapshot_manager.py:128-171 | the instance loop queues every instance's items in order and counts the instances |
| Scanner.HandlePage | ebs_snapshot_manager.py:128-171 | the reservation loop queues the page's items and reports one count per reservation |
| Scanner.FetchAt | ebs_snapshot_manager.py:115-126 | the retry loop never reads past the script, and a page arrives only after the calls already made |
| Scanner.FetchAtSpec | ebs_snapshot_manager.py:115-126 | a page request makes at most five calls, all but the last of which raised; it gives up only after five raised; when the script ends first, every call made raised |
| Scanner.DescribeWithRetry | ebs_snapshot_manager.py:115-126 | the retry loop fetches exactly the page, give-up or end that the retry specification gives |
| Scanner.ScanFromTokens | ebs_snapshot_manager.py:173-177 | the first request carries no token, each later one the non-empty token of the page before it, and a completed scan ends on a page without a token |
| Scanner.TokensPrepended | ebs_snapshot_manager.py:173-177 | a page whose token starts a chained scan, put in front of it, keeps the scan chained |
| Scanner.ScanFromAborted | ebs_snapshot_manager.py:116-124 | a scan is aborted only after its last five calls all raised |
| Scanner.ScanOnJoined | ebs_snapshot_manager.py:115-177 | carrying the scan out page by page ends where the recursive scan from the same point goes |
| Scanner.CheckInstances | ebs_snapshot_manager.py:100-179 | the pagination loop performs exactly the scan of the script, queues the items of every page received and reports their counts |
| Scanner.QueuePage | ebs_snapshot_manager.py:128-171 | handling one more page appends its items and counts to what was sent |
| Scanner.PagesAppend | ebs_snapshot_manager.py:128-171 | the items and counts of pages plus one are those of the pages, then those of the new page |
| Volumes.SurveyRaises | ebs_snapshot_manager.py:288-298 | the survey raises exactly when `now - retention` is before 0001-01-01 and some snapshot is completed |
| Volumes.SurveyDeletes | ebs_snapshot_manager.py:277-312 | a survey that does not raise deletes exactly the failed and expired snapshots, in order, and counts each deletion as deleted or as an error, going on after a failure |
| Volumes.SurveyPending | ebs_snapshot_manager.py:282-283 | the pending flag is set exactly when some snapshot is pending |
| Volumes.SurveyLatest | ebs_snapshot_manager.py:270-303 | `latest` is the maximum start time of the kept completed snapshots, and at least 1970-01-01; deleted snapshots never count |
| Volumes.SurveyStaysRaised | ebs_snapshot_manager.py:298 | once the survey has raised, the snapshots after it change nothing |
| Volumes.SurveySnapshots | ebs_snapshot_manager.py:269-312 | the survey loop computes exactly the survey specification |
| Volumes.HandleSpec | ebs_snapshot_manager.py:219-258 | a body that does not parse raises with nothing done and the set unchanged; otherwise the handler lists at most one volume, one not seen before, and adds it to the set |
| Volumes.HandleItem | ebs_snapshot_manager.py:253-359 | the volume is in the set afterwards; a volume seen before is only counted as skipped; a new one is listed first |
| Volumes.HandleVolumeMessage | ebs_snapshot_manager.py:210-359 | the handler does exactly what the handler specification says |
| Volumes.HandleWorkItem | ebs_snapshot_manager.py:253-359 | the dedup, survey and create steps do exactly what the work-item specification says |
| Volumes.CreateDecision | ebs_snapshot_manager.py:320-321 | a snapshot is created exactly when none is pending and every kept completed snapshot, and 1970-01-01, started before `now - frequency` |
| Volumes.RaisedRequests | ebs_snapshot_manager.py:253-321 | for a new volume the handler raises exactly when the survey raised, the listing failed or `now - frequency` is out of range; it has then listed the volume and sent the survey's deletions, and neither created nor tagged a snapshot |
| Volumes.DeleteRequests | ebs_snapshot_manager.py:277-312 | when the handler completes, the requests after the listing are one deletion per failed or expired snapshot, in order, each bumping its own counter |
| Volumes.CreateRequests | ebs_snapshot_manager.py:324-357 | a due snapshot is requested with the description naming volume, instance and device, then tagged if EC2 answered, and exactly one counter is bumped: created on success, error otherwise |
| Volumes.TagsNameTheInstance | ebs_snapshot_manager.py:333-351 | the four tags in order: `Name` = instance name (or id) + " drive " + device, `InstanceId`, `DeviceName`, `InstanceName` |
| Volumes.ExpiryBoundary | ebs_snapshot_manager.py:298 | expiry is strict: a snapshot exactly at the cutoff is kept, one a microsecond older is deleted |
| Drain.Record | ebs_snapshot_manager.py:197-206 | a handled message is deleted and counted once, as succeeded or as failed |
| Drain.RunFromAppend | ebs_snapshot_manager.py:187-206 | running two runs of messages one after the other, with the set carried over, is running them all |
| Drain.HandleAndDelete | ebs_snapshot_manager.py:197-206 | one message is handled, counted and deleted as the run specification says |
| Drain.HandleBatch | ebs_snapshot_manager.py:197-206 | the loop over one batch runs every message of it in order |
| Drain.CheckVolumes | ebs_snapshot_manager.py:181-208 | batches are received only while more than 30000 ms remain and the last receive was not empty, and the run is that of every message received |
| Drain.NextBatch | ebs_snapshot_manager.py:192-206 | the run after one more batch goes on from the run before it |
| Drain.EveryMessageDeleted | ebs_snapshot_manager.py:197-206 | every received message is deleted exactly once, in order, and succeeded + failed equals the number of messages, whatever the handler does |
| Drain.ListedOnce | ebs_snapshot_manager.py:187-206 | with one set shared by the run and a handler that lists only new volumes, no volume is listed twice and every listed volume is in the set |
| Drain.HandlerListsOnlyNew | ebs_snapshot_manager.py:253-275 | the volume handler lists only volumes it has not seen |
| Drain.ListedOnceInRun | ebs_snapshot_manager.py:188-275 | in a run of `check_volumes`, each volume's snapshots are listed at most once |
| Drain.ListingNewVolume | ebs_snapshot_manager.py:253-275 | appending the requests for a volume not seen before keeps every volume listed once |
| Drain.ProcessedGrows | ebs_snapshot_manager.py:188-258 | the set only grows: a volume seen once stays seen for the rest of the run |

## Left out

- The boto3 clients, SQS, EC2 and CloudWatch are not modelled. Their answers are inputs: a script of `DescribeInstances` outcomes, the queue rounds, and `Responses` for each message. Their requests are outputs: queued work items, `InstancesProcessed` counts, and lists of calls and counters.
- The JSON encoding of queue messages is not modelled. A body that is not a work item is an absent body, which raises. A work item without a `Frequency` key has `frequency == None`, which raises too. The scanner always writes the other keys, so their absence is not modelled.
- The shape of the metric payloads and their two dimensions is left out. Each counter is recorded once.
- `put_metric_data`, `message.delete()` and `queue.send_message` are taken never to fail. A failure of `send_message` would abort `check_instances` in the middle of a page. The model does not capture that.
- `lambda_handler`, the action selector, is left out. It is a plain dispatch to the two entry points.
- Logging is left out.
- The sleep between retries is left out. Only the number of attempts is kept.
- The stripping of the time zone from snapshot start times is left out. Start times are already naive UTC instants.
- The clock is read twice by the handler: for expiry and for the create decision. The model uses one `now` for both.
- `DescribeSnapshots` pages are collapsed into one listing of snapshots. A flag records that a further page request raised after them. The listing request appears once in the calls.
- A `DescribeInstances` script can run out before the scan ends. The scan then stops with status `OutOfScript`. What EC2 would do next is not known.
- A queue script can run out. Past its end the queue is empty.
- Races between overlapping Lambda invocations are left out. The set of processed volumes belongs to one run.
- The Python set that `handle_volume_message` changes in place is modelled by value. The handler returns the new set, and the loop carries it to the next message.
- Python's `int()` limit on the number of digits does not exist in the Python version the project targets (3.6), so digit runs of any length are read.
- instance-manager.py is not part of this model. It is a superseded copy that is not packaged.
- generate-cfn-template.py and setup.py are not part of this model. They are deployment and packaging.
