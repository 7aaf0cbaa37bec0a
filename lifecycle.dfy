/** The lifecycle the two uuid-keyed hooks give each upload session: an EventSource opened
    for the session before the upload is posted, and closed once the upload settles. */
module Lifecycle {
  import opened Upload

  /** What a hook does outside its own state, in the order it does it; `D` is what the hook
      hands the caller's `onDrop`. */
  datatype Effect<+D> =
    | Opened(source: nat, session: string)           // new EventSource for the session
    | Posted(request: Request)                        // the upload's fetch is issued
    | Forwarded(accepted: D, rejections: seq<Rejection>)  // the caller's onDrop is called
    | ParseFailed(event: string)                      // a listener's JSON.parse threw
    | UploadErrorReported(message: string)            // onUploadError(error)
    | Closed(source: nat)                             // progressEventSource.close()

  /** Every source was opened, in the trace; a source is open exactly until its close is
      in the trace; nothing closes a source that was never opened. */
  ghost predicate Consistent<D>(sources: seq<Source>, effects: seq<Effect<D>>) {
    && (forall h :: 0 <= h < |sources| ==> Opened(h, sources[h].session) in effects)
    && (forall h :: 0 <= h < |sources| ==> (sources[h].open <==> Closed(h) !in effects))
    && (forall i :: 0 <= i < |effects| && effects[i].Closed? ==> effects[i].source < |sources|)
  }

  /** Opening a new source and then acting without closing one keeps the trace consistent. */
  lemma OpeningKeepsConsistent<D>(sources: seq<Source>, effects: seq<Effect<D>>, session: string, later: seq<Effect<D>>)
    requires Consistent(sources, effects)
    requires forall i :: 0 <= i < |later| ==> !later[i].Closed?
    ensures Consistent(sources + [Source(session, true)], effects + [Opened(|sources|, session)] + later)
  {
    var h := |sources|;
    var effects' := effects + [Opened(h, session)] + later;
    assert Closed(h) !in effects by {
      forall i | 0 <= i < |effects| ensures effects[i] != Closed(h) {
      }
    }
    forall k | 0 <= k < h ensures Closed(k) in effects' <==> Closed(k) in effects {
      if Closed(k) in effects' {
        var i :| 0 <= i < |effects'| && effects'[i] == Closed(k);
        assert i < |effects|;
      }
    }
    forall i | 0 <= i < |effects'| && effects'[i].Closed? ensures effects'[i].source < h + 1 {
      assert i < |effects|;
    }
  }

  /** Closing an open source, after acting otherwise, keeps the trace consistent. */
  lemma ClosingKeepsConsistent<D>(sources: seq<Source>, effects: seq<Effect<D>>, h: nat, before: seq<Effect<D>>)
    requires Consistent(sources, effects) && h < |sources|
    requires forall i :: 0 <= i < |before| ==> !before[i].Closed?
    ensures Consistent(sources[h := Source(sources[h].session, false)], effects + before + [Closed(h)])
  {
    var effects' := effects + before + [Closed(h)];
    forall k | 0 <= k < |sources| && k != h ensures Closed(k) in effects' <==> Closed(k) in effects {
      if Closed(k) in effects' {
        var i :| 0 <= i < |effects'| && effects'[i] == Closed(k);
        assert i < |effects|;
      }
    }
    forall i | 0 <= i < |effects'| && effects'[i].Closed? ensures effects'[i].source < |sources| {
      if i < |effects| {
      } else {
        assert i == |effects'| - 1;
      }
    }
  }
}
