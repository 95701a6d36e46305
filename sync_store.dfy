/** The per-creator checkpoint record the launchers read and write: for each
    content stream, the stored high-water offset and the runtime resume
    token, plus the time of the last completed sync. */
module SyncStore {
  import opened Common

  /** The four streams a creator's record keeps offsets for. */
  datatype Stream = PhotoStream | VideoStream | AudioStream | PostsStream

  /** The contents of a record at one moment. */
  datatype Record = Record(last: map<Stream, Option<int>>, runtime: map<Stream, Option<string>>,
                           lastSyncUtc: Option<int>)

  class SyncData {
    /** The stored high-water mark per stream, as the integer its stored
        text denotes. */
    var last: map<Stream, Option<int>>
    /** The runtime resume token per stream. */
    var runtime: map<Stream, Option<string>>
    /** `last_sync_utc`, an opaque timestamp. */
    var lastSyncUtc: Option<int>

    ghost predicate Valid()
      reads this
    {
      forall s: Stream :: s in last && s in runtime
    }

    ghost function State(): Record
      reads this
    {
      Record(last, runtime, lastSyncUtc)
    }

    constructor (last: map<Stream, Option<int>>, runtime: map<Stream, Option<string>>, lastSyncUtc: Option<int>)
      requires forall s: Stream :: s in last && s in runtime
      ensures Valid()
      ensures this.last == last && this.runtime == runtime && this.lastSyncUtc == lastSyncUtc
    {
      this.last := last;
      this.runtime := runtime;
      this.lastSyncUtc := lastSyncUtc;
    }

    method SetLast(s: Stream, v: Option<int>)
      requires Valid()
      modifies this
      ensures Valid()
      ensures last == old(last)[s := v] && runtime == old(runtime) && lastSyncUtc == old(lastSyncUtc)
    {
      last := last[s := v];
    }

    method SetRuntime(s: Stream, t: Option<string>)
      requires Valid()
      modifies this
      ensures Valid()
      ensures runtime == old(runtime)[s := t] && last == old(last) && lastSyncUtc == old(lastSyncUtc)
    {
      runtime := runtime[s := t];
    }

    method SetLastSyncUtc(t: int)
      modifies this
      ensures lastSyncUtc == Some(t) && last == old(last) && runtime == old(runtime)
    {
      lastSyncUtc := Some(t);
    }
  }
}
