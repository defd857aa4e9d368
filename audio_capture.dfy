/**
 * The microphone recorder of the front end (frontend/src/AudioRecorder.tsx).
 *
 * The browser objects are abstract: a media stream is a handle handed in by
 * the environment, a MediaRecorder is a numbered instance, an object URL is a
 * numbered token whose blob is kept in `objectUrls`, and revoking a URL adds
 * its token to `revoked`. The two recorder events, `dataavailable` and
 * `stop`, are methods the environment calls on the single event loop.
 */
module AudioCapture {
  import opened Common

  /** Every recording is encoded with this media type. */
  const RecordingMimeType: string := "audio/webm"

  /** The `recordingStatus` state of the component. */
  datatype Status = Idle | Recording | Paused

  /** A live microphone stream, as returned by `getUserMedia`. */
  type StreamHandle = nat

  /** An object URL, as returned by `URL.createObjectURL`. */
  type Url = nat

  /** An immutable binary payload with its declared media type. */
  datatype Blob = Blob(bytes: seq<byte>, mimeType: string)

  /** One `dataavailable` event: `None` when `event.data` is undefined. */
  type Fragment = Option<seq<byte>>

  /** The data handler keeps a fragment only when it is defined and not empty. */
  predicate Buffered(f: Fragment)
    ensures f.None? ==> !Buffered(f)
    ensures f == Some([]) ==> !Buffered(f)
    ensures Buffered(f) ==> f.Some? && f.value != []
  {
    f.Some? && |f.value| > 0
  }

  /** The buffer the data handler builds from a run of fragments, in arrival order. */
  function Kept(fs: seq<Fragment>): (r: seq<seq<byte>>)
    ensures |r| <= |fs|
    ensures forall i :: 0 <= i < |r| ==> |r[i]| > 0
  {
    if fs == [] then []
    else Kept(fs[..|fs| - 1]) + (if Buffered(fs[|fs| - 1]) then [fs[|fs| - 1].value] else [])
  }

  /** Every defined fragment, empty ones included, in arrival order. */
  function Defined(fs: seq<Fragment>): seq<seq<byte>> {
    if fs == [] then []
    else Defined(fs[..|fs| - 1]) + (if fs[|fs| - 1].Some? then [fs[|fs| - 1].value] else [])
  }

  /** The bytes of a blob built from `chunks`: the chunks joined in order. */
  function Concat(chunks: seq<seq<byte>>): (bytes: seq<byte>)
    ensures |bytes| == TotalSize(chunks)
  {
    if chunks == [] then [] else Concat(chunks[..|chunks| - 1]) + chunks[|chunks| - 1]
  }

  /** A two-chunk buffer joins into the first chunk followed by the second. */
  lemma ConcatPair(a: seq<byte>, b: seq<byte>)
    ensures Concat([a, b]) == a + b
  {
    assert [a, b][..1] == [a];
    assert [a][..0] == [];
  }

  /** The number of bytes held in `chunks`. */
  function TotalSize(chunks: seq<seq<byte>>): nat {
    if chunks == [] then 0 else TotalSize(chunks[..|chunks| - 1]) + |chunks[|chunks| - 1]|
  }

  /** Joining is compatible with splitting the buffer anywhere. */
  lemma {:induction false} ConcatAppend(a: seq<seq<byte>>, b: seq<seq<byte>>)
    ensures Concat(a + b) == Concat(a) + Concat(b)
    decreases |b|
  {
    if b == [] {
      assert a + b == a;
    } else {
      var front := b[..|b| - 1];
      assert (a + b)[..|a + b| - 1] == a + front;
      assert (a + b)[|a + b| - 1] == b[|b| - 1];
      ConcatAppend(a, front);
    }
  }

  /** Delivering one more fragment appends at most that fragment, at the end. */
  lemma KeptSnoc(fs: seq<Fragment>, f: Fragment)
    ensures Kept(fs + [f]) == Kept(fs) + (if Buffered(f) then [f.value] else [])
  {
    assert (fs + [f])[..|fs|] == fs;
  }

  /** Extending a prefix of a run by its next fragment, in terms of `Kept`. */
  lemma KeptPrefix(fs: seq<Fragment>, i: nat)
    requires i < |fs|
    ensures Kept(fs[..i + 1]) == Kept(fs[..i]) + (if Buffered(fs[i]) then [fs[i].value] else [])
  {
    assert fs[..i + 1] == fs[..i] + [fs[i]];
    KeptSnoc(fs[..i], fs[i]);
  }

  /** Dropping the empty fragments never changes the assembled payload. */
  lemma {:induction false} DroppingEmptyKeepsPayload(fs: seq<Fragment>)
    ensures Concat(Kept(fs)) == Concat(Defined(fs))
  {
    if fs != [] {
      var front, last := fs[..|fs| - 1], fs[|fs| - 1];
      DroppingEmptyKeepsPayload(front);
      var k := if Buffered(last) then [last.value] else [];
      var d := if last.Some? then [last.value] else [];
      ConcatAppend(Kept(front), k);
      ConcatAppend(Defined(front), d);
      assert Concat(k) == Concat(d) by {
        if last.Some? {
          assert Concat(d) == Concat([]) + last.value;
          if !Buffered(last) { assert last.value == []; }
        }
      }
    }
  }

  /**
   * Fragments of 10, 0 and 20 bytes leave two chunks of 10 and 20 bytes,
   * which join into a 30-byte payload.
   */
  lemma ScenarioTenZeroTwenty(ten: seq<byte>, twenty: seq<byte>)
    requires |ten| == 10 && |twenty| == 20
    ensures Kept([Some(ten), Some([]), Some(twenty)]) == [ten, twenty]
    ensures |Concat(Kept([Some(ten), Some([]), Some(twenty)]))| == 30
  {
    var fs: seq<Fragment> := [Some(ten), Some([]), Some(twenty)];
    KeptSnoc([], Some(ten));
    KeptSnoc([Some(ten)], Some([]));
    KeptSnoc([Some(ten), Some([])], Some(twenty));
    assert [Some(ten)] + [Some([])] == [Some(ten), Some([])];
    assert [Some(ten), Some([])] + [Some(twenty)] == fs;
    assert [ten, twenty][..1] == [ten];
    assert [ten][..0] == [];
    assert TotalSize([ten]) == 10;
  }

  /** Every field of a Recorder, as one value. */
  datatype Snapshot = Snapshot(
    permission: bool,
    stream: Option<StreamHandle>,
    status: Status,
    recorder: Option<nat>,
    recorderLive: bool,
    recordersMade: nat,
    pendingStops: nat,
    chunks: seq<seq<byte>>,
    audio: Option<Url>,
    objectUrls: seq<Blob>,
    revoked: set<Url>)

  /** The state the recorder component holds between events. */
  class Recorder {
    /** Whether microphone access was granted. */
    var permission: bool
    /** The microphone stream, once granted. */
    var stream: Option<StreamHandle>
    /** The recording status shown by the UI. */
    var status: Status
    /** The MediaRecorder the ref points at, by instance number. */
    var recorder: Option<nat>
    /** Whether `stop()` has not yet been called on that MediaRecorder. */
    var recorderLive: bool
    /** How many MediaRecorder instances have been created. */
    var recordersMade: nat
    /** Stop events that the browser has yet to deliver. */
    var pendingStops: nat
    /** The chunk buffer behind `audioChunksRef`. */
    var chunks: seq<seq<byte>>
    /** The playback URL of the last recording. */
    var audio: Option<Url>
    /** The blob behind every object URL ever created; a URL is its index. */
    var objectUrls: seq<Blob>
    /** The object URLs that have been revoked. */
    var revoked: set<Url>
    /** Whether `stopRecording` has run since the last URL was published. */
    ghost var stoppedSincePublish: bool

    function State(): Snapshot
      reads this
    {
      Snapshot(permission, stream, status, recorder, recorderLive, recordersMade,
               pendingStops, chunks, audio, objectUrls, revoked)
    }

    ghost predicate Valid()
      reads this
    {
      && (permission <==> stream.Some?)
      && (recorder.Some? ==> stream.Some? && recorder.value < recordersMade)
      && (recorder.None? ==> !recorderLive && pendingStops == 0 && chunks == [])
      && (status != Idle ==> recorder.Some? && recorderLive)
      && (forall i :: 0 <= i < |chunks| ==> |chunks[i]| > 0)
      && (audio.Some? ==> audio.value == |objectUrls| - 1)
      && (forall u :: u in revoked ==> u < |objectUrls|)
      && (stoppedSincePublish ==> audio.None? || audio.value in revoked)
    }

    /** The component's initial state. */
    constructor ()
      ensures Valid()
      ensures State() == Snapshot(false, None, Idle, None, false, 0, 0, [], None, [], {})
    {
      permission, stream, status := false, None, Idle;
      recorder, recorderLive, recordersMade, pendingStops := None, false, 0, 0;
      chunks, audio, objectUrls, revoked := [], None, [], {};
      stoppedSincePublish := false;
    }

    /**
     * `requestPermission`: `granted` is what `getUserMedia` resolved to, or
     * `None` when it threw.
     */
    method RequestPermission(granted: Option<StreamHandle>)
      requires Valid()
      modifies this
      ensures Valid() && stoppedSincePublish == old(stoppedSincePublish)
      ensures granted.Some? ==> State() == old(State()).(stream := granted, permission := true)
      ensures granted.None? ==> State() == old(State())
    {
      if granted.Some? {
        stream := granted;
        permission := true;
      }
    }

    /**
     * `startRecording`: with a stream, a new MediaRecorder replaces the
     * current one and the buffer is emptied, whatever the status was.
     */
    method Start()
      requires Valid()
      modifies this
      ensures Valid() && stoppedSincePublish == old(stoppedSincePublish)
      ensures old(stream).None? ==> State() == old(State())
      ensures old(stream).Some? ==>
        State() == old(State()).(status := Recording, recorder := Some(old(recordersMade)),
                                 recorderLive := true, recordersMade := old(recordersMade) + 1,
                                 chunks := [])
    {
      if stream.None? {
        return;
      }
      status := Recording;
      recorder := Some(recordersMade);
      recordersMade := recordersMade + 1;
      recorderLive := true;
      chunks := [];
    }

    /**
     * The `ondataavailable` handler: nothing happens before a recorder has
     * been installed; an undefined or empty fragment is dropped; any other
     * is appended.
     */
    method OnDataAvailable(data: Fragment)
      requires Valid()
      modifies this
      ensures Valid() && stoppedSincePublish == old(stoppedSincePublish)
      ensures State() == old(State()).(chunks := old(chunks) +
        if old(recorder).Some? && Buffered(data) then [data.value] else [])
    {
      if recorder.None? {
        return;
      }
      if data.None? {
        return;
      }
      if |data.value| == 0 {
        return;
      }
      chunks := chunks + [data.value];
    }

    /**
     * `stopRecording`: without a recorder nothing happens. Otherwise the
     * recorder is stopped (a live one will deliver one stop event), the
     * status becomes idle and the current playback URL is revoked.
     */
    method Stop()
      requires Valid()
      modifies this
      ensures Valid()
      ensures old(recorder).None? ==>
        State() == old(State()) && stoppedSincePublish == old(stoppedSincePublish)
      ensures old(recorder).Some? ==>
        && State() == old(State()).(status := Idle, recorderLive := false,
             pendingStops := old(pendingStops) + (if old(recorderLive) then 1 else 0),
             revoked := old(revoked) + (if old(audio).Some? then {old(audio).value} else {}))
        && stoppedSincePublish
    {
      if recorder.None? {
        return;
      }
      if recorderLive {
        pendingStops := pendingStops + 1;
        recorderLive := false;
      }
      status := Idle;
      if audio.Some? {
        revoked := revoked + {audio.value};
      }
      stoppedSincePublish := true;
    }

    /**
     * The `onstop` handler, run when the browser delivers a stop event: the
     * buffer is joined in order into an `audio/webm` blob, a fresh URL for it
     * becomes the playback URL, and the buffer is emptied. When a
     * `stopRecording` ran since the last URL was published, the URL being
     * replaced was already revoked by it.
     */
    method OnStop()
      requires Valid()
      modifies this
      ensures Valid()
      ensures old(pendingStops) == 0 ==>
        State() == old(State()) && stoppedSincePublish == old(stoppedSincePublish)
      ensures old(pendingStops) > 0 ==>
        && State() == old(State()).(pendingStops := old(pendingStops) - 1, chunks := [],
             audio := Some(|old(objectUrls)|),
             objectUrls := old(objectUrls) + [Blob(Concat(old(chunks)), RecordingMimeType)])
        && audio.value !in revoked
        && !stoppedSincePublish
        && (old(stoppedSincePublish) && old(audio).Some? ==> old(audio).value in revoked)
    {
      if pendingStops == 0 {
        return;
      }
      var blob := Blob(Concat(chunks), RecordingMimeType);
      var url := |objectUrls|;
      objectUrls := objectUrls + [blob];
      audio := Some(url);
      chunks := [];
      pendingStops := pendingStops - 1;
      stoppedSincePublish := false;
    }

    /** `pauseRecording`: only from `recording` with a recorder. */
    method Pause()
      requires Valid()
      modifies this
      ensures Valid() && stoppedSincePublish == old(stoppedSincePublish)
      ensures old(status) == Recording && old(recorder).Some? ==>
        State() == old(State()).(status := Paused)
      ensures !(old(status) == Recording && old(recorder).Some?) ==> State() == old(State())
    {
      if status != Recording {
        return;
      }
      if recorder.None? {
        return;
      }
      status := Paused;
    }

    /** `resumeRecording`: only from `paused` with a recorder. */
    method Resume()
      requires Valid()
      modifies this
      ensures Valid() && stoppedSincePublish == old(stoppedSincePublish)
      ensures old(status) == Paused && old(recorder).Some? ==>
        State() == old(State()).(status := Recording)
      ensures !(old(status) == Paused && old(recorder).Some?) ==> State() == old(State())
    {
      if status != Paused {
        return;
      }
      if recorder.None? {
        return;
      }
      status := Recording;
    }
  }

  /**
   * One more delivered fragment, on snapshots: if the buffer held the kept
   * part of a prefix of the run, after the next fragment's handler it holds
   * the kept part of the prefix one longer.
   */
  lemma DeliverStep(start: Snapshot, before: Snapshot, after: Snapshot, fs: seq<Fragment>, i: nat, grows: bool)
    requires i < |fs|
    requires before == start.(chunks := start.chunks + if grows then Kept(fs[..i]) else [])
    requires after == before.(chunks := before.chunks +
      if grows && Buffered(fs[i]) then [fs[i].value] else [])
    ensures after == start.(chunks := start.chunks + if grows then Kept(fs[..i + 1]) else [])
  {
    KeptPrefix(fs, i);
    if grows {
      assert start.chunks + Kept(fs[..i]) + (if Buffered(fs[i]) then [fs[i].value] else [])
          == start.chunks + (Kept(fs[..i]) + (if Buffered(fs[i]) then [fs[i].value] else []));
    } else {
      assert before.chunks + [] == before.chunks;
    }
  }

  /**
   * The environment delivering a run of `dataavailable` events one after
   * another: the buffer grows by exactly the fragments the handler keeps,
   * in arrival order.
   */
  method Deliver(r: Recorder, fs: seq<Fragment>)
    requires r.Valid()
    modifies r
    ensures r.Valid() && r.stoppedSincePublish == old(r.stoppedSincePublish)
    ensures r.State() == old(r.State()).(chunks := old(r.chunks) +
      if old(r.recorder).Some? then Kept(fs) else [])
  {
    ghost var start := r.State();
    ghost var grows := r.recorder.Some?;
    var i := 0;
    while i < |fs|
      invariant 0 <= i <= |fs|
      invariant r.Valid() && r.stoppedSincePublish == old(r.stoppedSincePublish)
      invariant r.State() == start.(chunks := start.chunks + if grows then Kept(fs[..i]) else [])
      invariant r.recorder.Some? == grows
    {
      ghost var before := r.State();
      r.OnDataAvailable(fs[i]);
      DeliverStep(start, before, r.State(), fs, i, grows);
      i := i + 1;
    }
    assert fs[..|fs|] == fs;
  }

  /**
   * A session as the UI drives it: permission, start, pause, resume, three
   * fragments, stop and the stop event. The published blob is the two
   * non-empty fragments joined in order, typed `audio/webm`.
   */
  method RecordOnce(mic: StreamHandle, ten: seq<byte>, twenty: seq<byte>) returns (payload: Blob)
    requires |ten| == 10 && |twenty| == 20
    ensures payload == Blob(ten + twenty, "audio/webm")
  {
    var r := new Recorder();
    r.Pause();
    assert r.status == Idle;
    r.RequestPermission(Some(mic));
    r.Start();
    r.Pause();
    assert r.status == Paused;
    r.Resume();
    r.OnDataAvailable(Some(ten));
    r.OnDataAvailable(Some([]));
    r.OnDataAvailable(Some(twenty));
    assert r.chunks == [ten, twenty];
    r.Stop();
    assert r.status == Idle && r.pendingStops == 1;
    r.OnStop();
    assert r.audio == Some(0) && r.chunks == [];
    ConcatPair(ten, twenty);
    payload := r.objectUrls[r.audio.value];
  }

  /**
   * Starting while already recording replaces the recorder and throws the
   * buffered chunks away.
   */
  method RestartDiscardsChunks(mic: StreamHandle, chunk: seq<byte>)
    returns (before: seq<seq<byte>>, after: seq<seq<byte>>, status: Status, replaced: bool)
    requires |chunk| > 0
    ensures before == [chunk] && after == [] && status == Recording && replaced
  {
    var r := new Recorder();
    r.RequestPermission(Some(mic));
    r.Start();
    r.OnDataAvailable(Some(chunk));
    var first := r.recorder;
    before := r.chunks;
    r.Start();
    after, status, replaced := r.chunks, r.status, r.recorder != first;
  }

  /**
   * If a second stop event is pending when the first is delivered (stop,
   * start and stop again before the browser delivers the first), the second
   * `onstop` replaces a URL that nothing revoked.
   */
  method TwoPendingStops(mic: StreamHandle) returns (leaked: Url, current: Url, revokedUrls: set<Url>)
    ensures leaked != current && leaked !in revokedUrls
  {
    var r := new Recorder();
    r.RequestPermission(Some(mic));
    r.Start();
    r.Stop();
    r.Start();
    r.Stop();
    assert r.pendingStops == 2;
    r.OnStop();
    leaked := r.audio.value;
    r.OnStop();
    current := r.audio.value;
    revokedUrls := r.revoked;
  }
}
