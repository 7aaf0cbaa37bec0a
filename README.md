# Upload-state reconciliation of the photo-uploader dropzone hooks

This project models the client side of the photo uploader in Dafny: three React hooks that
take the files dropped on a dropzone and upload them to a content-addressed store (IPFS).
While the upload runs, they fold the progress and hash events the server streams back into
per-file state.

- `useDropzone` (module `Dropzone`, class `DropzoneHook`). Each drop mints a session id and
  one id per file and opens an EventSource for the session. It then replaces the list of
  accepted files and seeds two maps keyed by file id: progress 0 and hash `""`. It then
  posts the files as a multipart form whose field names are the ids, and finally passes the
  new files to the caller's `onDrop`. The `progress` and
  `hash` listeners overwrite one key of their map. The source is closed once the upload
  settles, and a failure goes to `onUploadError`.
- `useDropzoneKeepFiles` (module `KeepFiles`, class `KeepFilesHook`). It keeps one map from
  file id to a record `{file, preview, progress, hash?}`. Drops add records and keep the
  earlier ones. Each event updates one field of one record, and `removeFile` deletes one
  record.
- `useIPFSDropzone` (module `IPFSDropzone`, class `IPFSHook`). One upload-progress id is
  fixed at mount, and one EventSource is opened for it at mount. Each drop replaces the
  previews and, when `shouldShowErrorToasts` holds (the default), shows one error toast per
  rejection reason. It then uploads the files under
  the field names "0", "1", …, and the response body replaces the hashes.

Shared pieces:

- `Objects`: the JavaScript object operations the updaters are built from. These are the
  spread with one key overridden, delete on a copy, and `Object.fromEntries`, which lets a
  later duplicate key win.
- `Upload`: the multipart form loops, how `uploadImages` settles on a reply, and the
  dropzone option defaults.
- `Lifecycle`: the trace of opened, posted and closed event sources that both uuid-keyed
  hooks keep consistent.
- `Decimal`: `Number#toString` of an index or of the mount-time id, with its parse-back.

Each hook's `useState` cells are fields of its class. Each functional updater is a pure
function, and a class method applies it as one atomic step in event order. Side effects
(event sources opened and closed, requests posted, callbacks, console output) are appended
to an `effects` trace. Toasts are appended to a `toasts` list. Inputs the code takes from
its environment are parameters:

- the ids `uuidv4` returned, one per file;
- the object URLs `URL.createObjectURL` made;
- the value of `Date.now()` at mount;
- the reply to the upload;
- each stream message, already parsed into an `[id, value]` pair or marked malformed.

An event source is addressed by its index in `sources`. A closed source dispatches nothing,
so an event delivered on a closed handle changes nothing.

These hooks do not guard against stale, repeated or unknown-id events, and the model follows them:

- A progress event overwrites the stored value even when it is smaller. Out-of-order values
  are not discarded (`Dropzone.LastMessageWins`, `Dropzone.StaleProgressOverwrites`).
- A repeated hash event overwrites the stored hash. Nothing detects the repeat.
- An event for an id the hook does not know creates an entry instead of being ignored.
- `useIPFSDropzone` takes its hashes only from the upload response. Stream messages are
  only logged.
- `useDropzoneKeepFiles` has no `try`/`catch` around `JSON.parse`. A malformed message
  therefore throws out of the handler before the state is touched, where `useDropzone`
  catches and logs the error. Both leave the state unchanged. The trace records both as
  `ParseFailed`.

`uploadImages` is textually the same in `hooks/useDropzone.ts:25-45` and
`hooks/useDropzoneKeepFiles.ts:26-46`, so both hooks use the same members
`Upload.FormWithIds` and `Upload.Outcome`. The option defaults at
`hooks/useDropzoneKeepFiles.ts:49-50,79-82` are likewise the same as those modelled by
`Upload.Configure`.

## Model

| member | source | states |
|---|---|---|
| Decimal.NatToString | hooks/useIPFSDropzone.ts:31 | `index.toString()` is a non-empty string of digits with no leading zero, except for 0 itself |
| Decimal.ValueOfNatToString | hooks/useIPFSDropzone.ts:31 | reading the numeral back gives the index (round trip) |
| Decimal.NatToStringInjective | hooks/useIPFSDropzone.ts:31 | different indices get different field names |
| Objects.With | hooks/useDropzone.ts:66 | `{...prev, [id]: v}`: `id` holds `v`, its key set grows by `id` only, and every other key is unchanged |
| Objects.Without | hooks/useDropzoneKeepFiles.ts:118-120 | delete on a copy: exactly `id` leaves the key set, the other entries are unchanged, and an absent id is a no-op |
| Objects.FromEntries | hooks/useDropzoneKeepFiles.ts:97-99 | the result's keys are exactly the listed keys, and each key holds the value paired with its last occurrence |
| Objects.FromDistinctEntries | hooks/useDropzoneKeepFiles.ts:97-99 | with distinct keys, every pair is entered as given |
| Objects.FromEntriesProvenance | hooks/useDropzone.ts:104-106 | every value held came from a pair with that key |
| Upload.FormWithIds | hooks/useDropzone.ts:30-31 | part i carries file i under `ids[i]` ("undefined" past the end); with one id per file, the field names are the ids in file order and the files are the drop's files |
| Upload.FormWithIndices | hooks/useIPFSDropzone.ts:30-31 | part i carries file i under `i.toString()`; the field names are "0" … "n-1" and pairwise distinct |
| Upload.Outcome | hooks/useDropzone.ts:41-44 | fulfilled with the body exactly when the response is ok; otherwise rejected with `body.message`, or with "Failed to upload images" when it is absent, or with the transport's error when fetch or JSON parsing fails |
| Upload.Configure | hooks/useDropzone.ts:85-89 | accept defaults to "image/*" and noClick to true; maxSize is the explicit value, else `maxSizeMb * 1024 * 1024` with `maxSizeMb` 10 by default (10485760) |
| Lifecycle.OpeningKeepsConsistent | hooks/useDropzone.ts:91-92 | opening a new source and acting without closing one keeps the trace consistent: every source was opened, and is open exactly until its close is traced |
| Lifecycle.ClosingKeepsConsistent | hooks/useDropzone.ts:122-123 | closing an open source after settlement keeps the trace consistent |
| Dropzone.WithPreviewAndId | hooks/useDropzone.ts:94-98 | the accepted files are exactly this drop's files in order, each with its own preview and its own id |
| Dropzone.Seeded | hooks/useDropzone.ts:102-114 | after a drop every new id maps to the initial value (0 or ""), every other previously known key keeps its entry, and no other key appears |
| Dropzone.Step | hooks/useDropzone.ts:61-79 | a parsed `[id, v]` sets `id` to `v` whatever it held, and leaves other keys alone; malformed data leaves the map unchanged |
| Dropzone.LastMessageWins | hooks/useDropzone.ts:66 | after any sequence of messages, an id holds the value of the last message for it (not the largest), and an id no message names keeps its entry |
| Dropzone.StaleProgressOverwrites | hooks/useDropzone.ts:66 | an illustration of `LastMessageWins` showing there is no monotonicity guard: progress 0.9 followed by 0.05 leaves 0.05 |
| Dropzone.StepsCommute | hooks/useDropzone.ts:75 | messages for different ids (or malformed ones) commute |
| Dropzone.DropzoneHook.constructor | hooks/useDropzone.ts:47-54 | empty maps, no accepted files, options with their defaults |
| Dropzone.DropzoneHook.Drop | hooks/useDropzone.ts:90-126 | the source for the session is opened, then the upload is posted with the ids as field names in file order, then the caller's onDrop gets the new files; acceptedFiles is replaced; both maps are seeded |
| Dropzone.DropzoneHook.OnProgress | hooks/useDropzone.ts:61-70 | on an open source: progresses becomes `Step` of the old map, hashes and files are untouched, and a parse error is only logged; on a closed source nothing changes |
| Dropzone.DropzoneHook.OnHash | hooks/useDropzone.ts:72-79 | on an open source: hashes becomes `Step` of the old map, progresses is untouched, and a parse error is only logged; on a closed source nothing changes |
| Dropzone.DropzoneHook.Settle | hooks/useDropzone.ts:117-123 | on failure `onUploadError` is called with the message, then on success or failure the source is closed; the maps are untouched |
| KeepFiles.WithProgress | hooks/useDropzoneKeepFiles.ts:60-65 | only `files[id].progress` changes; preview, file and hash are kept; an unknown id gets a record with only the progress; other records are unchanged |
| KeepFiles.WithHash | hooks/useDropzoneKeepFiles.ts:67-70 | only `files[id].hash` changes; progress, preview and file are kept; an unknown id gets a record with only the hash; other records are unchanged |
| KeepFiles.ProgressAndHashCommute | hooks/useDropzoneKeepFiles.ts:64-69 | a progress and a hash event give the same map in either order |
| KeepFiles.ProgressEventsOrder | hooks/useDropzoneKeepFiles.ts:64 | progress events for different ids commute; for the same id the later value wins |
| KeepFiles.NewRecords | hooks/useDropzoneKeepFiles.ts:87-91 | one record per accepted file, with its preview, progress 0 and no hash |
| KeepFiles.Merged | hooks/useDropzoneKeepFiles.ts:95-100 | the new ids are added, each with the record at its last occurrence, and every earlier record whose id is not reused is kept |
| KeepFiles.DropAddsOneRecordPerFile | hooks/useDropzoneKeepFiles.ts:93-100 | with distinct fresh ids, the map grows by exactly one record per file, record i is under `ids[i]` with progress 0 and no hash, and all earlier records are kept |
| KeepFiles.WithIds | hooks/useDropzoneKeepFiles.ts:107-111 | the caller's onDrop gets the new records in order, record i paired with `ids[i]` |
| KeepFiles.RemoveIdempotent | hooks/useDropzoneKeepFiles.ts:115-123 | removing an id twice is the same as removing it once |
| KeepFiles.KeepFilesHook.constructor | hooks/useDropzoneKeepFiles.ts:48-53 | an empty map, options with their defaults |
| KeepFiles.KeepFilesHook.Drop | hooks/useDropzoneKeepFiles.ts:83-112 | the source is opened before the upload is posted; the same ids in file order go to the form and to the caller's onDrop; the records are merged into the map |
| KeepFiles.KeepFilesHook.OnProgress | hooks/useDropzoneKeepFiles.ts:60-65 | on an open source a parsed message applies `WithProgress`, and malformed data throws with the map unchanged; on a closed source nothing changes |
| KeepFiles.KeepFilesHook.OnHash | hooks/useDropzoneKeepFiles.ts:67-70 | on an open source a parsed message applies `WithHash`, and malformed data throws with the map unchanged; on a closed source nothing changes |
| KeepFiles.KeepFilesHook.Settle | hooks/useDropzoneKeepFiles.ts:103-105 | a failure is forwarded to `onUploadError`, then on success or failure the source is closed; the map is unchanged |
| KeepFiles.KeepFilesHook.RemoveFile | hooks/useDropzoneKeepFiles.ts:115-123 | the map loses exactly `id` (see `Objects.Without`) |
| IPFSDropzone.ErrorTitle | hooks/useIPFSDropzone.ts:22-27 | the four react-dropzone codes get their fixed titles, and any other code gets "Error" (the `??` fallback at line 79) |
| IPFSDropzone.FileToasts | hooks/useIPFSDropzone.ts:76-82 | one toast per error of a rejected file, in order, titled by its code and described by its message |
| IPFSDropzone.ErrorToastsCount | hooks/useIPFSDropzone.ts:74-85 | the number of toasts is the total number of errors over all rejected files |
| IPFSDropzone.ErrorToastsAppend | hooks/useIPFSDropzone.ts:75-83 | the toasts follow the order of the files: two groups of rejections give the first group's toasts, then the second's |
| IPFSDropzone.ErrorToastsOfFirstFile | hooks/useIPFSDropzone.ts:75-82 | the first toasts are those of the first rejected file, in order |
| IPFSDropzone.IPFSHook.constructor | hooks/useIPFSDropzone.ts:45-68 | the upload-progress id is the mount time; one source is opened for it; toasts are shown by default; the size limit is `maxFileSizeMb` (10 by default) megabytes |
| IPFSDropzone.IPFSHook.ShowErrorToasts | hooks/useIPFSDropzone.ts:72-87 | when enabled the toasts are `ErrorToasts` of the rejections appended in order, and when disabled none are added |
| IPFSDropzone.IPFSHook.Drop | hooks/useIPFSDropzone.ts:90-94 | previews are replaced by one per accepted file; the rejections are toasted; the upload is posted under the mount-time id with field names "0" … "n-1"; hashes are untouched; the invariant keeps every upload under the id of the one source opened at mount |
| IPFSDropzone.IPFSHook.Settle | hooks/useIPFSDropzone.ts:94-102 | on success the body replaces the hashes wholesale and is logged; on failure the hashes stay and one "Failed to upload" toast carries the error message |
| IPFSDropzone.IPFSHook.OnMessage | hooks/useIPFSDropzone.ts:63-65 | a stream message is only logged |

## Left out

- Transport: `fetch`, `FormData` serialisation, the `EventSource` connection and server-sent-event framing are not modelled. A request is the session id plus its list of (field name, file) parts. A reply is either a response (ok flag plus parsed body) or a transport error message.
- `uuidv4`, `Date.now` and `URL.createObjectURL` are not modelled. Their results are parameters: one id and one preview per file, and the mount time. Randomness and time are not modelled.
- `JSON.parse` is abstracted. A message is either a parsed `[id, value]` pair, with the value typed as the listener declares it (a number for progress, a string for hash), or malformed. The model has no message for data that parses to an ill-typed or short array: `["x"]`, for instance, sets key "x" to `undefined` at `hooks/useDropzone.ts:66`, and that case is not represented.
- A JavaScript object spread copies only a `File`'s own properties. Records keep the file as one opaque field, and the `File` getters (`name`, `size`, …) that a spread drops are not modelled.
- The lookup `errorTitles[code]` on a plain object would also find inherited properties such as `constructor`. The model treats every code other than the four listed ones as unknown.
- react-dropzone's own accept, size and count validation is not modelled. Its rejections are inputs to `Drop`; the settings are computed but not applied to files.
- React scheduling is not modelled: `setState` batching is abstracted, and each functional updater is applied atomically in event order. React strict mode running the mount effect twice is also not modelled.
- A reply body is either an array of strings or an object with an optional string `message`. A JSON `null` body on a non-ok reply, where `body.message` throws a TypeError instead of falling back (`hooks/useDropzone.ts:44`, `hooks/useIPFSDropzone.ts:42`), is not represented.
- An ok object body keeps only its `message` in the model. In the source it becomes `hashes` with all its fields (`hooks/useIPFSDropzone.ts:95`).
- Chakra toast rendering is not modelled. A toast is a (title, description) record, with status "error" implied.
- `onUploadError` itself is not modelled. The trace records only that it was called and with which message. A callback that throws is not modelled.
- `useIPFSDropzone` never closes its event source: the cleanup is commented out at `hooks/useIPFSDropzone.ts:70`. The `acceptedFilesCallback` and `rejectedFilesCallback` props are unused (lines 104-105). The model has neither.
- The upload endpoint, the server's event publishing and the IPFS client are not part of this model. `pages/api/upload-images/[id].ts` is not modelled. The presentation components and `pages/index.tsx` are also not part of this model.
- Numbers are Dafny reals. The `progress * 100` display offset is left out.
