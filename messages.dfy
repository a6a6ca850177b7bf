/**
 * The records the two entry points exchange through the volume queue: the
 * instance tags read from EC2 and the work item sent for each attached
 * EBS volume.
 */
module Messages {
  import opened Wrappers

  /** An EC2 tag, or one of the tags put on a new snapshot. */
  datatype Tag = Tag(key: string, value: string)

  /**
   * The body of one queue message. `frequency` is absent when the instance
   * had no frequency tag; every other key is always written by the scanner.
   */
  datatype WorkItem = WorkItem(
    instanceId: string,
    frequency: Option<string>,
    retention: string,
    instanceTags: map<string, string>,
    deviceName: string,
    volumeId: string)
}
