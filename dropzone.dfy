/** The `useDropzone` hook: every drop mints a session id and one id per file, opens an
    EventSource for the session, seeds the per-id progress and hash maps, replaces the list
    of accepted files and issues the upload; the `progress` and `hash` listeners write the
    streamed values into the maps, and the source is closed once the upload settles. */
module Dropzone {
  import opened Wrappers
  import opened Objects
  import opened Upload
  import opened Lifecycle

  /** `{ ...file, preview, id }` */
  datatype UploadedFile = UploadedFile(file: File, preview: Preview, id: FileId)

  function Ids(accepted: seq<UploadedFile>): seq<FileId> {
    seq(|accepted|, i requires 0 <= i < |accepted| => accepted[i].id)
  }

  function FilesOf(accepted: seq<UploadedFile>): seq<File> {
    seq(|accepted|, i requires 0 <= i < |accepted| => accepted[i].file)
  }

  function PreviewsOf(accepted: seq<UploadedFile>): seq<Preview> {
    seq(|accepted|, i requires 0 <= i < |accepted| => accepted[i].preview)
  }

  /** The drop's files in order, each with its own preview and its own minted id. */
  function WithPreviewAndId(files: seq<File>, previews: seq<Preview>, ids: seq<FileId>): (accepted: seq<UploadedFile>)
    requires |previews| == |files| && |ids| == |files|
    ensures FilesOf(accepted) == files
    ensures PreviewsOf(accepted) == previews
    ensures Ids(accepted) == ids
  {
    seq(|files|, i requires 0 <= i < |files| => UploadedFile(files[i], previews[i], ids[i]))
  }

  /** `{ ...prev, ...Object.fromEntries(ids.map(id => [id, initial])) }`: every new id holds
      `initial`, every other key keeps its entry, and no other key appears. */
  function Seeded<V>(prev: map<FileId, V>, ids: seq<FileId>, initial: V): (next: map<FileId, V>)
    ensures next.Keys == prev.Keys + (set id | id in ids)
    ensures forall id :: id in ids ==> next[id] == initial
    ensures forall k :: k in prev && k !in ids ==> next[k] == prev[k]
  {
    var values := seq(|ids|, _ => initial);
    var seeds := FromEntries(ids, values);
    assert forall id :: id in ids ==> seeds[id] == initial by {
      forall id | id in ids ensures seeds[id] == initial {
        FromEntriesProvenance(ids, values, id);
      }
    }
    prev + seeds
  }

  /** The updater of the `progress` (or `hash`) listener: a parsed `[id, value]` sets `id`
      to `value` whatever it held before, and leaves every other key alone; data that
      failed to parse changes nothing. */
  function Step<V>(prev: map<FileId, V>, message: Message<V>): (next: map<FileId, V>)
    ensures message.Malformed? ==> next == prev
    ensures message.Parsed? ==> next.Keys == prev.Keys + {message.id} && next[message.id] == message.value
    ensures message.Parsed? ==> forall k :: k in prev && k != message.id ==> next[k] == prev[k]
  {
    match message
    case Parsed(id, value) => With(prev, id, value)
    case Malformed => prev
  }

  /** The map after its listener has handled `messages` in delivery order. */
  function Replay<V>(prev: map<FileId, V>, messages: seq<Message<V>>): map<FileId, V>
    decreases |messages|
  {
    if messages == [] then prev
    else Step(Replay(prev, messages[..|messages| - 1]), messages[|messages| - 1])
  }

  /** The value carried by the last parsed message for `id`, if any. */
  function LastValue<V>(messages: seq<Message<V>>, id: FileId): Option<V>
    decreases |messages|
  {
    if messages == [] then None
    else
      var last := messages[|messages| - 1];
      if last.Parsed? && last.id == id then Some(last.value)
      else LastValue(messages[..|messages| - 1], id)
  }

  /** Whatever the interleaving, an id ends up holding the value of the last message
      delivered for it (not the largest), and an id no message names keeps its entry. */
  lemma {:induction false} LastMessageWins<V>(prev: map<FileId, V>, messages: seq<Message<V>>, id: FileId)
    ensures LastValue(messages, id).Some? ==>
      id in Replay(prev, messages) && Replay(prev, messages)[id] == LastValue(messages, id).value
    ensures LastValue(messages, id).None? ==>
      (id in Replay(prev, messages) <==> id in prev) &&
      (id in prev ==> Replay(prev, messages)[id] == prev[id])
    decreases |messages|
  {
    if messages != [] {
      LastMessageWins(prev, messages[..|messages| - 1], id);
    }
  }

  /** An illustration of `LastMessageWins`: the progress listener has no monotonicity guard,
      so a smaller progress value delivered later overwrites a larger one. */
  lemma StaleProgressOverwrites(prev: map<FileId, real>, id: FileId)
    ensures Replay(prev, [Parsed(id, 0.9), Parsed(id, 0.05)])[id] == 0.05
  {
    LastMessageWins(prev, [Parsed(id, 0.9), Parsed(id, 0.05)], id);
  }

  /** Messages for different ids may be delivered in either order. */
  lemma StepsCommute<V>(prev: map<FileId, V>, a: Message<V>, b: Message<V>)
    requires a.Parsed? && b.Parsed? ==> a.id != b.id
    ensures Step(Step(prev, a), b) == Step(Step(prev, b), a)
  {
  }

  class DropzoneHook {
    /** The react-dropzone options after the hook's defaults. */
    const settings: Settings
    /** Whether the caller passed its own `onDrop`. */
    const forwardsDrop: bool

    var progresses: map<FileId, real>
    var hashes: map<FileId, string>
    var acceptedFiles: seq<UploadedFile>
    /** Every EventSource the hook opened, by the handle its listeners run under. */
    var sources: seq<Source>
    var effects: seq<Effect<seq<UploadedFile>>>

    ghost predicate Valid()
      reads this
    {
      Consistent(sources, effects)
    }

    constructor (options: Options, maxSizeMb: Option<real>, forwardsDrop: bool)
      ensures Valid()
      ensures settings == Configure(options, maxSizeMb) && this.forwardsDrop == forwardsDrop
      ensures progresses == map[] && hashes == map[] && acceptedFiles == []
      ensures sources == [] && effects == []
    {
      settings := Configure(options, maxSizeMb);
      this.forwardsDrop := forwardsDrop;
      progresses, hashes, acceptedFiles := map[], map[], [];
      sources, effects := [], [];
    }

    /** `onDrop`: `session` and `ids` are what uuidv4 returned, one id per accepted file, and
        `previews` the object URLs made for the files. The source is opened before the upload
        is posted; the form pairs the i-th file with the i-th id. */
    method Drop(files: seq<File>, rejections: seq<Rejection>, session: string,
                ids: seq<FileId>, previews: seq<Preview>) returns (h: nat, request: Request)
      requires Valid()
      requires |ids| == |files| && |previews| == |files|
      modifies this
      ensures Valid()
      ensures h == old(|sources|) && sources == old(sources) + [Source(session, true)]
      ensures acceptedFiles == WithPreviewAndId(files, previews, ids)
      ensures hashes == Seeded(old(hashes), ids, "")
      ensures progresses == Seeded(old(progresses), ids, 0.0)
      ensures request.session == session
      ensures Files(request.parts) == files && Fields(request.parts) == ids
      ensures effects == old(effects) + [Opened(h, session), Posted(request)] +
                         (if forwardsDrop then [Forwarded(acceptedFiles, rejections)] else [])
    {
      h := |sources|;
      var accepted := WithPreviewAndId(files, previews, ids);
      var form := FormWithIds(files, Ids(accepted));
      request := Request(session, form);
      var later := [Posted(request)] + (if forwardsDrop then [Forwarded(accepted, rejections)] else []);
      OpeningKeepsConsistent(sources, effects, session, later);
      sources := sources + [Source(session, true)];
      acceptedFiles := accepted;
      hashes := Seeded(hashes, ids, "");
      progresses := Seeded(progresses, ids, 0.0);
      effects := effects + [Opened(h, session)] + later;
    }

    /** The `progress` listener of source `h`. */
    method OnProgress(h: nat, message: Message<real>)
      requires Valid() && h < |sources|
      modifies this
      ensures Valid()
      ensures progresses == if old(sources[h].open) then Step(old(progresses), message) else old(progresses)
      ensures hashes == old(hashes) && acceptedFiles == old(acceptedFiles) && sources == old(sources)
      ensures effects == old(effects) +
                         (if old(sources[h].open) && message.Malformed? then [ParseFailed("progress")] else [])
    {
      if sources[h].open {
        progresses := Step(progresses, message);
        if message.Malformed? {
          effects := effects + [ParseFailed("progress")];
        }
      }
    }

    /** The `hash` listener of source `h`. */
    method OnHash(h: nat, message: Message<string>)
      requires Valid() && h < |sources|
      modifies this
      ensures Valid()
      ensures hashes == if old(sources[h].open) then Step(old(hashes), message) else old(hashes)
      ensures progresses == old(progresses) && acceptedFiles == old(acceptedFiles) && sources == old(sources)
      ensures effects == old(effects) +
                         (if old(sources[h].open) && message.Malformed? then [ParseFailed("hash")] else [])
    {
      if sources[h].open {
        hashes := Step(hashes, message);
        if message.Malformed? {
          effects := effects + [ParseFailed("hash")];
        }
      }
    }

    /** The upload issued with source `h` settles: a failure goes to `onUploadError`, and
        either way the source is closed afterwards. */
    method Settle(h: nat, reply: Reply)
      requires Valid() && h < |sources| && sources[h].open
      modifies this
      ensures Valid()
      ensures sources == old(sources)[h := Source(old(sources[h].session), false)]
      ensures var outcome := Outcome(reply);
        effects == old(effects) +
                   (if outcome.Failure? then [UploadErrorReported(outcome.error)] else []) + [Closed(h)]
      ensures progresses == old(progresses) && hashes == old(hashes) && acceptedFiles == old(acceptedFiles)
    {
      var outcome := Outcome(reply);
      var reported := if outcome.Failure? then [UploadErrorReported(outcome.error)] else [];
      ClosingKeepsConsistent(sources, effects, h, reported);
      effects := effects + reported + [Closed(h)];
      sources := sources[h := Source(sources[h].session, false)];
    }
  }
}
