/** The `useDropzoneKeepFiles` hook: one map from file id to a record holding the file, its
    preview, its progress and its hash. Drops add records and keep the earlier ones, the
    streamed events update one field of one record, and `removeFile` drops a record. */
module KeepFiles {
  import opened Wrappers
  import opened Objects
  import opened Upload
  import opened Lifecycle

  /** A stored record `{ ...file, preview, progress, hash? }`; a field is None when the
      record lacks it. */
  datatype Record = Record(file: Option<File>, preview: Option<Preview>, progress: Option<real>, hash: Option<string>)

  /** `{ ...undefined }`, the empty object a handler spreads for an id it has no record of. */
  const Empty := Record(None, None, None, None)

  function Current(files: map<FileId, Record>, id: FileId): Record {
    if id in files then files[id] else Empty
  }

  /** The progress handler's updater `{ ...prev, [id]: { ...prev[id], progress } }`: only the
      progress of `id` changes; an unknown id gets a record holding just the progress. */
  function WithProgress(files: map<FileId, Record>, id: FileId, progress: real): (next: map<FileId, Record>)
    ensures next.Keys == files.Keys + {id}
    ensures next[id].progress == Some(progress)
    ensures id in files ==>
      next[id].file == files[id].file && next[id].preview == files[id].preview && next[id].hash == files[id].hash
    ensures id !in files ==> next[id] == Record(None, None, Some(progress), None)
    ensures forall k :: k in files && k != id ==> next[k] == files[k]
  {
    With(files, id, Current(files, id).(progress := Some(progress)))
  }

  /** The hash handler's updater `{ ...prev, [id]: { ...prev[id], hash } }`: only the hash of
      `id` changes, a repeated hash simply overwrites; an unknown id gets a record holding
      just the hash. */
  function WithHash(files: map<FileId, Record>, id: FileId, hash: string): (next: map<FileId, Record>)
    ensures next.Keys == files.Keys + {id}
    ensures next[id].hash == Some(hash)
    ensures id in files ==>
      next[id].file == files[id].file && next[id].preview == files[id].preview && next[id].progress == files[id].progress
    ensures id !in files ==> next[id] == Record(None, None, None, Some(hash))
    ensures forall k :: k in files && k != id ==> next[k] == files[k]
  {
    With(files, id, Current(files, id).(hash := Some(hash)))
  }

  /** A progress and a hash event commute, for the same id or for different ids. */
  lemma ProgressAndHashCommute(files: map<FileId, Record>, a: FileId, p: real, b: FileId, h: string)
    ensures WithHash(WithProgress(files, a, p), b, h) == WithProgress(WithHash(files, b, h), a, p)
  {
    if a == b {
      assert Current(WithProgress(files, a, p), a).(hash := Some(h)) ==
             Current(WithHash(files, a, h), a).(progress := Some(p));
    }
  }

  /** Two progress events for different ids commute; for the same id the later one wins. */
  lemma ProgressEventsOrder(files: map<FileId, Record>, a: FileId, p: real, b: FileId, q: real)
    ensures a != b ==> WithProgress(WithProgress(files, a, p), b, q) == WithProgress(WithProgress(files, b, q), a, p)
    ensures a == b ==> WithProgress(WithProgress(files, a, p), b, q) == WithProgress(files, b, q)
  {
    if a == b {
      assert Current(WithProgress(files, a, p), a).(progress := Some(q)) == Current(files, a).(progress := Some(q));
    }
  }

  /** `acceptedFilesOfDrop.map(file => ({ ...file, preview, progress: 0 }))`: a record per
      file with its preview, progress 0 and no hash. */
  function NewRecords(files: seq<File>, previews: seq<Preview>): (records: seq<Record>)
    requires |previews| == |files|
    ensures |records| == |files|
    ensures forall i :: 0 <= i < |records| ==>
      records[i].file == Some(files[i]) && records[i].preview == Some(previews[i]) &&
      records[i].progress == Some(0.0) && records[i].hash.None?
  {
    seq(|files|, i requires 0 <= i < |files| => Record(Some(files[i]), Some(previews[i]), Some(0.0), None))
  }

  /** `{ ...prev, ...Object.fromEntries(records.map((file, index) => [ids[index], file])) }`:
      every pre-existing record whose id is not reused is kept, and each id gets the record
      paired with its last occurrence. */
  function Merged(prev: map<FileId, Record>, ids: seq<FileId>, records: seq<Record>): (next: map<FileId, Record>)
    requires |ids| == |records|
    ensures next.Keys == prev.Keys + (set id | id in ids)
    ensures forall i :: 0 <= i < |ids| && LastOccurrence(ids, i) ==> next[ids[i]] == records[i]
    ensures forall k :: k in prev && k !in ids ==> next[k] == prev[k]
  {
    prev + FromEntries(ids, records)
  }

  /** With distinct fresh ids, a drop keeps every earlier record and adds one record per file. */
  lemma DropAddsOneRecordPerFile(prev: map<FileId, Record>, ids: seq<FileId>, files: seq<File>, previews: seq<Preview>)
    requires |ids| == |files| && |previews| == |files|
    requires forall a, b :: 0 <= a < b < |ids| ==> ids[a] != ids[b]
    requires forall i :: 0 <= i < |ids| ==> ids[i] !in prev
    ensures |Merged(prev, ids, NewRecords(files, previews))| == |prev| + |files|
    ensures forall k :: k in prev ==> Merged(prev, ids, NewRecords(files, previews))[k] == prev[k]
    ensures forall i :: 0 <= i < |ids| ==>
      Merged(prev, ids, NewRecords(files, previews))[ids[i]] == Record(Some(files[i]), Some(previews[i]), Some(0.0), None)
  {
    var records := NewRecords(files, previews);
    var next := Merged(prev, ids, records);
    var added := set id | id in ids;
    assert prev.Keys !! added;
    DistinctCount(ids);
    assert |next.Keys| == |prev.Keys| + |added|;
    forall i | 0 <= i < |ids| ensures next[ids[i]] == Record(Some(files[i]), Some(previews[i]), Some(0.0), None) {
      assert LastOccurrence(ids, i);
    }
  }

  /** A sequence without repeats has as many elements as its set. */
  lemma {:induction false} DistinctCount(ids: seq<FileId>)
    requires forall a, b :: 0 <= a < b < |ids| ==> ids[a] != ids[b]
    ensures |set id | id in ids| == |ids|
    decreases |ids|
  {
    if ids != [] {
      var n := |ids| - 1;
      DistinctCount(ids[..n]);
      assert (set id | id in ids) == (set id | id in ids[..n]) + {ids[n]};
      assert ids[n] !in ids[..n];
    }
  }

  /** `{ ...file, id: ids[index] }`, what the caller's onDrop receives for a new file. */
  datatype Dropped = Dropped(record: Record, id: FileId)

  /** The new records in order, each paired with the id at its index. */
  function WithIds(records: seq<Record>, ids: seq<FileId>): (dropped: seq<Dropped>)
    requires |ids| == |records|
    ensures |dropped| == |records|
    ensures forall i :: 0 <= i < |dropped| ==> dropped[i].record == records[i] && dropped[i].id == ids[i]
  {
    seq(|records|, i requires 0 <= i < |records| => Dropped(records[i], ids[i]))
  }

  /** `removeFile(id)`: removing twice is removing once. */
  lemma RemoveIdempotent(files: map<FileId, Record>, id: FileId)
    ensures Without(Without(files, id), id) == Without(files, id)
  {
  }

  class KeepFilesHook {
    /** The react-dropzone options after the hook's defaults. */
    const settings: Settings
    /** Whether the caller passed its own `onDrop`. */
    const forwardsDrop: bool

    var files: map<FileId, Record>
    /** Every EventSource the hook opened, by the handle its handlers run under. */
    var sources: seq<Source>
    var effects: seq<Effect<seq<Dropped>>>

    ghost predicate Valid()
      reads this
    {
      Consistent(sources, effects)
    }

    constructor (options: Options, maxSizeMb: Option<real>, forwardsDrop: bool)
      ensures Valid()
      ensures settings == Configure(options, maxSizeMb) && this.forwardsDrop == forwardsDrop
      ensures files == map[] && sources == [] && effects == []
    {
      settings := Configure(options, maxSizeMb);
      this.forwardsDrop := forwardsDrop;
      files := map[];
      sources, effects := [], [];
    }

    /** `onDrop`: `session` and `ids` are what uuidv4 returned (one id per file, in file
        order) and `previews` the object URLs. The source opens before the upload is posted,
        and the upload and the caller's onDrop see the same ids in file order. */
    method Drop(dropped: seq<File>, rejections: seq<Rejection>, session: string,
                ids: seq<FileId>, previews: seq<Preview>) returns (h: nat, request: Request)
      requires Valid()
      requires |ids| == |dropped| && |previews| == |dropped|
      modifies this
      ensures Valid()
      ensures h == old(|sources|) && sources == old(sources) + [Source(session, true)]
      ensures files == Merged(old(files), ids, NewRecords(dropped, previews))
      ensures request.session == session
      ensures Files(request.parts) == dropped && Fields(request.parts) == ids
      ensures effects == old(effects) + [Opened(h, session), Posted(request)] +
                         (if forwardsDrop then [Forwarded(WithIds(NewRecords(dropped, previews), ids), rejections)] else [])
    {
      h := |sources|;
      var records := NewRecords(dropped, previews);
      var form := FormWithIds(dropped, ids);
      request := Request(session, form);
      var later := [Posted(request)] + (if forwardsDrop then [Forwarded(WithIds(records, ids), rejections)] else []);
      OpeningKeepsConsistent(sources, effects, session, later);
      sources := sources + [Source(session, true)];
      files := Merged(files, ids, records);
      effects := effects + [Opened(h, session)] + later;
    }

    /** The progress handler of source `h`: data that fails to parse throws out of the
        handler before the state is touched. */
    method OnProgress(h: nat, message: Message<real>)
      requires Valid() && h < |sources|
      modifies this
      ensures Valid()
      ensures files == if old(sources[h].open) && message.Parsed?
                       then WithProgress(old(files), message.id, message.value) else old(files)
      ensures sources == old(sources)
      ensures effects == old(effects) +
                         (if old(sources[h].open) && message.Malformed? then [ParseFailed("progress")] else [])
    {
      if sources[h].open {
        match message
        case Parsed(id, progress) =>
          files := WithProgress(files, id, progress);
        case Malformed =>
          effects := effects + [ParseFailed("progress")];
      }
    }

    /** The hash handler of source `h`. */
    method OnHash(h: nat, message: Message<string>)
      requires Valid() && h < |sources|
      modifies this
      ensures Valid()
      ensures files == if old(sources[h].open) && message.Parsed?
                       then WithHash(old(files), message.id, message.value) else old(files)
      ensures sources == old(sources)
      ensures effects == old(effects) +
                         (if old(sources[h].open) && message.Malformed? then [ParseFailed("hash")] else [])
    {
      if sources[h].open {
        match message
        case Parsed(id, hash) =>
          files := WithHash(files, id, hash);
        case Malformed =>
          effects := effects + [ParseFailed("hash")];
      }
    }

    /** The upload issued with source `h` settles: a failure goes to `onUploadError`, and
        either way the source is closed afterwards. */
    method Settle(h: nat, reply: Reply)
      requires Valid() && h < |sources| && sources[h].open
      modifies this
      ensures Valid()
      ensures sources == old(sources)[h := Source(old(sources[h].session), false)]
      ensures var outcome := Outcome(reply);
        effects == old(effects) +
                   (if outcome.Failure? then [UploadErrorReported(outcome.error)] else []) + [Closed(h)]
      ensures files == old(files)
    {
      var outcome := Outcome(reply);
      var reported := if outcome.Failure? then [UploadErrorReported(outcome.error)] else [];
      ClosingKeepsConsistent(sources, effects, h, reported);
      effects := effects + reported + [Closed(h)];
      sources := sources[h := Source(sources[h].session, false)];
    }

    /** `removeFile(id)`: exactly that record goes; an absent id changes nothing. */
    method RemoveFile(id: FileId)
      requires Valid()
      modifies this`files
      ensures Valid()
      ensures files == Without(old(files), id)
    {
      files := Without(files, id);
    }
  }
}
