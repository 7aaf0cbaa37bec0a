/** The `useIPFSDropzone` hook: one upload-progress id fixed at mount, one EventSource opened
    for it at mount, and per drop a fresh list of previews, one error toast per rejection
    reason, and an upload whose response body becomes the list of hashes. */
module IPFSDropzone {
  import opened Wrappers
  import opened Upload
  import Decimal

  /** react-dropzone's error codes that have a title of their own. */
  const FileInvalidType := "file-invalid-type"
  const FileTooLarge := "file-too-large"
  const FileTooSmall := "file-too-small"
  const TooManyFiles := "too-many-files"

  /** `errorTitles[code] ?? "Error"` */
  function ErrorTitle(code: string): (title: string)
    ensures code == FileInvalidType ==> title == "Invalid file type"
    ensures code == FileTooLarge ==> title == "File too large"
    ensures code == FileTooSmall ==> title == "File too small"
    ensures code == TooManyFiles ==> title == "Too many files"
    ensures code !in {FileInvalidType, FileTooLarge, FileTooSmall, TooManyFiles} ==> title == "Error"
  {
    if code == FileInvalidType then "Invalid file type"
    else if code == FileTooLarge then "File too large"
    else if code == FileTooSmall then "File too small"
    else if code == TooManyFiles then "Too many files"
    else "Error"
  }

  /** A Chakra toast; every toast the hook shows has status "error". */
  datatype Toast = Toast(title: string, description: string)

  const UploadFailedTitle := "Failed to upload"

  /** The toasts of one rejected file: one per error, in order, titled by its code and
      described by its message. */
  function FileToasts(errors: seq<FileError>): (toasts: seq<Toast>)
    ensures |toasts| == |errors|
    ensures forall j :: 0 <= j < |errors| ==>
      toasts[j] == Toast(ErrorTitle(errors[j].code), errors[j].message)
    decreases |errors|
  {
    if errors == [] then []
    else
      var n := |errors| - 1;
      FileToasts(errors[..n]) + [Toast(ErrorTitle(errors[n].code), errors[n].message)]
  }

  /** The toasts of all rejected files: each file's toasts, file after file. */
  function ErrorToasts(rejections: seq<Rejection>): seq<Toast>
    decreases |rejections|
  {
    if rejections == [] then []
    else
      var n := |rejections| - 1;
      ErrorToasts(rejections[..n]) + FileToasts(rejections[n].errors)
  }

  function ErrorCount(rejections: seq<Rejection>): nat
    decreases |rejections|
  {
    if rejections == [] then 0
    else
      var n := |rejections| - 1;
      ErrorCount(rejections[..n]) + |rejections[n].errors|
  }

  /** Exactly one toast per error of each rejected file. */
  lemma {:induction false} ErrorToastsCount(rejections: seq<Rejection>)
    ensures |ErrorToasts(rejections)| == ErrorCount(rejections)
    decreases |rejections|
  {
    if rejections != [] {
      ErrorToastsCount(rejections[..|rejections| - 1]);
    }
  }

  /** The toasts of two batches of rejections are those of the first followed by those of
      the second, so the files' order is the toasts' order. */
  lemma {:induction false} ErrorToastsAppend(first: seq<Rejection>, second: seq<Rejection>)
    ensures ErrorToasts(first + second) == ErrorToasts(first) + ErrorToasts(second)
    decreases |second|
  {
    if second != [] {
      var n := |second| - 1;
      assert (first + second)[..|first + second| - 1] == first + second[..n];
      assert (first + second)[|first + second| - 1] == second[n];
      ErrorToastsAppend(first, second[..n]);
    } else {
      assert first + second == first;
    }
  }

  /** The first toasts belong to the first rejected file. */
  lemma ErrorToastsOfFirstFile(rejections: seq<Rejection>, j: nat)
    requires rejections != [] && j < |rejections[0].errors|
    ensures |ErrorToasts(rejections)| > j
    ensures ErrorToasts(rejections)[j] ==
      Toast(ErrorTitle(rejections[0].errors[j].code), rejections[0].errors[j].message)
  {
    assert rejections == [rejections[0]] + rejections[1..];
    ErrorToastsAppend([rejections[0]], rejections[1..]);
    assert [rejections[0]][..0] == [];
  }

  /** What the hook does outside its state, other than toasts. */
  datatype Effect =
    | Opened(session: string)      // the mount effect's new EventSource
    | Posted(request: Request)      // the upload's fetch is issued
    | MessageLogged(data: string)   // console.log of a "message" event
    | UploadLogged(body: Body)      // console.log("Files uploaded", body)

  class IPFSHook {
    /** `useRef(+Date.now())`, read once at mount. */
    const uploadProgressId: nat
    const shouldShowErrorToasts: bool
    /** `maxFileSizeMb * 1024 * 1024`, with `maxFileSizeMb` 10 unless given. */
    const maxSize: real

    var previews: seq<Preview>
    var hashes: Body
    var toasts: seq<Toast>
    /** One flag per issued upload: true while its reply is awaited. */
    var pending: seq<bool>
    var effects: seq<Effect>

    /** The id as it appears in the stream's and the upload's URL. */
    function Session(): string
      reads this
    {
      Decimal.NatToString(uploadProgressId)
    }

    /** The only source was opened at mount for the upload-progress id, and every upload
        was posted under that same id. */
    ghost predicate Valid()
      reads this
    {
      && |effects| > 0 && effects[0] == Opened(Session())
      && (forall i :: 0 < i < |effects| ==> !effects[i].Opened?)
      && (forall i :: 0 <= i < |effects| && effects[i].Posted? ==> effects[i].request.session == Session())
    }

    /** Mount: `now` is what `Date.now()` returned; the effect opens the source. */
    constructor (now: nat, showToasts: Option<bool>, maxFileSizeMb: Option<real>)
      ensures Valid()
      ensures uploadProgressId == now && shouldShowErrorToasts == showToasts.GetOr(true)
      ensures maxSize == Megabytes(maxFileSizeMb.GetOr(DefaultMaxSizeMb))
      ensures previews == [] && hashes == Array([]) && toasts == [] && pending == []
      ensures effects == [Opened(Decimal.NatToString(now))]
    {
      uploadProgressId := now;
      shouldShowErrorToasts := showToasts.GetOr(true);
      maxSize := Megabytes(maxFileSizeMb.GetOr(DefaultMaxSizeMb));
      previews, hashes, toasts, pending := [], Array([]), [], [];
      effects := [Opened(Decimal.NatToString(now))];
    }

    /** `showErrorToasts`: when enabled, one toast per error of every rejected file, in
        order; otherwise none. */
    method ShowErrorToasts(rejections: seq<Rejection>)
      modifies this`toasts
      ensures toasts == old(toasts) + (if shouldShowErrorToasts then ErrorToasts(rejections) else [])
    {
      if shouldShowErrorToasts {
        var r := 0;
        while r < |rejections|
          invariant r <= |rejections|
          invariant toasts == old(toasts) + ErrorToasts(rejections[..r])
        {
          var errors := rejections[r].errors;
          var e := 0;
          while e < |errors|
            invariant e <= |errors|
            invariant toasts == old(toasts) + ErrorToasts(rejections[..r]) + FileToasts(errors[..e])
          {
            assert errors[..e + 1][..e] == errors[..e];
            toasts := toasts + [Toast(ErrorTitle(errors[e].code), errors[e].message)];
            e := e + 1;
          }
          assert errors[..e] == errors;
          assert rejections[..r + 1][..r] == rejections[..r];
          r := r + 1;
        }
        assert rejections[..r] == rejections;
      }
    }

    /** `onDrop`: `newPreviews` are the object URLs of the accepted files. The previews are
        replaced, the rejections toasted, and the upload posted under the mount-time id with
        the files under the field names "0", "1", ... */
    method Drop(accepted: seq<File>, rejections: seq<Rejection>, newPreviews: seq<Preview>)
      returns (u: nat, request: Request)
      requires Valid() && |newPreviews| == |accepted|
      modifies this
      ensures Valid()
      ensures previews == newPreviews
      ensures toasts == old(toasts) + (if shouldShowErrorToasts then ErrorToasts(rejections) else [])
      ensures request.session == Session()
      ensures Files(request.parts) == accepted && Fields(request.parts) == IndexFields(|accepted|)
      ensures u == old(|pending|) && pending == old(pending) + [true]
      ensures effects == old(effects) + [Posted(request)]
      ensures hashes == old(hashes)
    {
      previews := newPreviews;
      ShowErrorToasts(rejections);
      var form := FormWithIndices(accepted);
      request := Request(Session(), form);
      u := |pending|;
      pending := pending + [true];
      effects := effects + [Posted(request)];
    }

    /** The upload `u` settles: on success the body replaces the hashes wholesale; on failure
        the hashes stay and one "Failed to upload" toast carries the error message. */
    method Settle(u: nat, reply: Reply)
      requires Valid() && u < |pending| && pending[u]
      modifies this
      ensures Valid()
      ensures pending == old(pending)[u := false]
      ensures previews == old(previews)
      ensures var outcome := Outcome(reply);
        if outcome.Success? then
          hashes == outcome.value && toasts == old(toasts) && effects == old(effects) + [UploadLogged(outcome.value)]
        else
          hashes == old(hashes) && toasts == old(toasts) + [Toast(UploadFailedTitle, outcome.error)] &&
          effects == old(effects)
    {
      pending := pending[u := false];
      var outcome := Outcome(reply);
      match outcome
      case Success(body) =>
        effects := effects + [UploadLogged(body)];
        hashes := body;
      case Failure(message) =>
        toasts := toasts + [Toast(UploadFailedTitle, message)];
    }

    /** The source's "message" listener only logs the data. */
    method OnMessage(data: string)
      requires Valid()
      modifies this`effects
      ensures Valid()
      ensures effects == old(effects) + [MessageLogged(data)]
    {
      effects := effects + [MessageLogged(data)];
    }
  }
}
