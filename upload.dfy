/** What the three hooks share: the files and previews a drop hands over, the multipart
    upload request `uploadImages` builds, how its reply settles the upload, the dropzone
    option defaults, and the parsed server-sent events. */
module Upload {
  import opened Wrappers
  import Decimal

  type FileId = string

  /** A file the browser handed to the dropzone. */
  datatype File = File(name: string, size: nat)

  /** The object URL `URL.createObjectURL` made for a file (opaque). */
  datatype Preview = Preview(url: string)

  /** One reason react-dropzone refused a file, and a refused file with its reasons. */
  datatype FileError = FileError(code: string, message: string)
  datatype Rejection = Rejection(file: File, errors: seq<FileError>)

  /** One `formData.append(field, file)`. */
  datatype FormPart = FormPart(field: string, file: File)

  /** The POST `uploadImages` issues: the session id that ends the URL, and the form's parts in order. */
  datatype Request = Request(session: string, parts: seq<FormPart>)

  function Fields(parts: seq<FormPart>): seq<string> {
    seq(|parts|, i requires 0 <= i < |parts| => parts[i].field)
  }

  function Files(parts: seq<FormPart>): seq<File> {
    seq(|parts|, i requires 0 <= i < |parts| => parts[i].file)
  }

  /** `ids[index]` used as a field name: past the end it is `undefined`, which FormData spells "undefined". */
  function IdField(ids: seq<FileId>, index: nat): string {
    if index < |ids| then ids[index] else "undefined"
  }

  /** The form of the uuid-keyed hooks: the i-th part carries the i-th file under the i-th id,
      so with one id per file the field names are the ids, in file order. */
  method FormWithIds(files: seq<File>, ids: seq<FileId>) returns (form: seq<FormPart>)
    ensures Files(form) == files
    ensures forall i :: 0 <= i < |form| ==> form[i].field == IdField(ids, i)
    ensures |ids| == |files| ==> Fields(form) == ids
  {
    form := [];
    var index := 0;
    while index < |files|
      invariant index <= |files| && |form| == index
      invariant forall i :: 0 <= i < index ==> form[i] == FormPart(IdField(ids, i), files[i])
    {
      form := form + [FormPart(IdField(ids, index), files[index])];
      index := index + 1;
    }
  }

  /** "0", "1", ..., the decimal numerals of 0 .. n-1. */
  function IndexFields(n: nat): seq<string> {
    seq(n, i requires 0 <= i < n => Decimal.NatToString(i))
  }

  /** The form of the IPFS hook: the i-th file under the field name `i.toString()`; no two
      parts share a field name. */
  method FormWithIndices(files: seq<File>) returns (form: seq<FormPart>)
    ensures Files(form) == files
    ensures Fields(form) == IndexFields(|files|)
    ensures forall i, j :: 0 <= i < j < |form| ==> form[i].field != form[j].field
  {
    form := [];
    var index := 0;
    while index < |files|
      invariant index <= |files| && |form| == index
      invariant forall i :: 0 <= i < index ==> form[i] == FormPart(Decimal.NatToString(i), files[i])
    {
      form := form + [FormPart(Decimal.NatToString(index), files[index])];
      index := index + 1;
    }
    forall i, j | 0 <= i < j < |form| ensures form[i].field != form[j].field {
      Decimal.NatToStringInjective(i, j);
    }
  }

  /** The parsed JSON body of the upload reply: an array (the declared result), or an
      object whose `message` may be absent. */
  datatype Body = Array(items: seq<string>) | Object(message: Option<string>)

  /** How the upload's reply arrived: a response whose body parsed, or a rejected `fetch`
      or `response.json()` with its error message. */
  datatype Reply = Answered(ok: bool, body: Body) | Unreadable(reason: string)

  const FallbackMessage := "Failed to upload images"

  /** How the promise `uploadImages` returns settles: fulfilled with the body exactly when
      the response is ok; otherwise rejected with `body.message ?? "Failed to upload images"`,
      or with the transport's own error. */
  function Outcome(reply: Reply): (r: Result<Body>)
    ensures r.Success? <==> reply.Answered? && reply.ok
    ensures r.Success? ==> r.value == reply.body
    ensures reply.Answered? && !reply.ok && reply.body.Object? && reply.body.message.Some? ==>
      r.error == reply.body.message.value
    ensures reply.Answered? && !reply.ok && !(reply.body.Object? && reply.body.message.Some?) ==>
      r.error == FallbackMessage
    ensures reply.Unreadable? ==> r.error == reply.reason
  {
    match reply
    case Unreadable(reason) => Failure(reason)
    case Answered(ok, body) =>
      if ok then Success(body)
      else Failure(if body.Object? then body.message.GetOr(FallbackMessage) else FallbackMessage)
  }

  /** The react-dropzone options a caller may pass to the uuid-keyed hooks, and what the hooks
      hand react-dropzone after filling in their defaults. */
  datatype Options = Options(accept: Option<string>, noClick: Option<bool>, maxSize: Option<real>)
  datatype Settings = Settings(accept: string, noClick: bool, maxSize: real)

  const DefaultMaxSizeMb: real := 10.0

  /** `maxSizeMb` megabytes in bytes (`maxSizeMb * 1024 * 1024`). */
  function Megabytes(mb: real): real {
    mb * 1024.0 * 1024.0
  }

  /** Defaults: images only, no click-to-open, and a size limit of `maxSizeMb` (10 unless
      given) megabytes unless an explicit `maxSize` is given. */
  function Configure(options: Options, maxSizeMb: Option<real>): (s: Settings)
    ensures options.accept.None? ==> s.accept == "image/*"
    ensures options.accept.Some? ==> s.accept == options.accept.value
    ensures s.noClick <==> options.noClick != Some(false)
    ensures options.maxSize.Some? ==> s.maxSize == options.maxSize.value
    ensures options.maxSize.None? && maxSizeMb.None? ==> s.maxSize == 10485760.0
    ensures options.maxSize.None? && maxSizeMb.Some? ==> s.maxSize == maxSizeMb.value * 1048576.0
  {
    Settings(options.accept.GetOr("image/*"), options.noClick.GetOr(true),
             options.maxSize.GetOr(Megabytes(maxSizeMb.GetOr(DefaultMaxSizeMb))))
  }

  /** The data of a `progress` or `hash` server-sent event after `JSON.parse`: an
      `[id, value]` pair, or data that did not parse. */
  datatype Message<+V> = Parsed(id: FileId, value: V) | Malformed

  /** An EventSource a hook opened for an upload session. A closed one dispatches nothing. */
  datatype Source = Source(session: string, open: bool)
}
