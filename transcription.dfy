/**
 * The transcription endpoint of the back end (backend/main.py, `transcribe`):
 * its size gate, the temporary file it writes, runs the speech model on and
 * removes, and the JSON object it answers with.
 *
 * The disk is the set of path strings that exist. The speech model is not run: its
 * outcome for the written file is a parameter, either a text or an
 * exception.
 */
module Transcription {

  /** Largest accepted upload in bytes, inclusive (decimal, not 10 MiB). */
  const SizeLimit: nat := 10000000

  /** The directory the upload is written to. */
  const TempDir: string := "/tmp/"

  const SizeErrorMessage: string := "File size exceeds 10MB limit"
  const FailureMessage: string := "Transcription failed"

  /** The parts of the uploaded file the endpoint uses. */
  datatype Upload = Upload(filename: string, size: nat)

  /** What `model.transcribe` does with the temporary file. */
  datatype ModelOutcome = Transcript(text: string) | Raises

  /** The endpoint's answer. */
  datatype Response = ErrorResponse(message: string) | TextResponse(text: string)

  /** One change the endpoint makes to, or use it makes of, the disk. */
  datatype DiskEffect = WriteFile(path: string) | RunModel(path: string) | RemoveFile(path: string)

  /**
   * The temporary path: the string `/tmp/` followed by the file name the
   * client sent. Paths are strings; they are not resolved, so a name holding
   * `..` segments names a file outside `/tmp`.
   */
  function TempPath(filename: string): (path: string)
    ensures |path| == |TempDir| + |filename|
    ensures path[..|TempDir|] == TempDir && path[|TempDir|..] == filename
  {
    TempDir + filename
  }

  /**
   * Different file-name strings never give the same path string (as strings
   * only: `a` and `./a` give different strings for one file).
   */
  lemma TempPathInjective(a: string, b: string)
    requires TempPath(a) == TempPath(b)
    ensures a == b
  {
    assert a == TempPath(a)[|TempDir|..];
  }

  /** The JSON object a response is serialised to: one key, `error` or `text`. */
  function Json(r: Response): (obj: map<string, string>)
    ensures r.ErrorResponse? ==> obj.Keys == {"error"} && obj["error"] == r.message
    ensures r.TextResponse? ==> obj.Keys == {"text"} && obj["text"] == r.text
  {
    match r
    case ErrorResponse(m) => map["error" := m]
    case TextResponse(t) => map["text" := t]
  }

  /** Whether an upload passes the size gate: at most 10,000,000 bytes, inclusive. */
  predicate WithinLimit(u: Upload)
    ensures WithinLimit(u) <==> u.size < 10000001
    ensures WithinLimit(u) ==> u.size < 10 * 1024 * 1024
  {
    u.size <= SizeLimit
  }

  /**
   * The answer to an upload: the size error for one over the limit, the
   * failure message when the model raises, and otherwise the model's text
   * unchanged.
   */
  function Answer(u: Upload, outcome: ModelOutcome): (r: Response)
    ensures !WithinLimit(u) ==> r == ErrorResponse(SizeErrorMessage)
    ensures WithinLimit(u) && outcome.Raises? ==> r == ErrorResponse(FailureMessage)
    ensures r.TextResponse? <==> WithinLimit(u) && outcome.Transcript?
    ensures r.TextResponse? ==> r.text == outcome.text
  {
    if u.size > SizeLimit then ErrorResponse(SizeErrorMessage)
    else match outcome
      case Raises => ErrorResponse(FailureMessage)
      case Transcript(t) => TextResponse(t)
  }

  /** The disk after a sequence of effects. */
  function Apply(disk: set<string>, effects: seq<DiskEffect>): set<string> {
    if effects == [] then disk
    else
      var d := Apply(disk, effects[..|effects| - 1]);
      match effects[|effects| - 1]
      case WriteFile(p) => d + {p}
      case RunModel(_) => d
      case RemoveFile(p) => d - {p}
  }

  /** Whether every `RunModel` in `effects` reads a file that exists at that point. */
  predicate ModelReadsExistingFiles(disk: set<string>, effects: seq<DiskEffect>) {
    forall i :: 0 <= i < |effects| && effects[i].RunModel? ==>
      effects[i].path in Apply(disk, effects[..i])
  }

  /** The effects of one request: none when it is refused, else write, run and remove. */
  function EffectsOf(u: Upload): (effects: seq<DiskEffect>)
    ensures !WithinLimit(u) ==> effects == []
    ensures WithinLimit(u) ==> |effects| == 3 && effects[0].WriteFile? && effects[2].RemoveFile?
  {
    if u.size > SizeLimit then []
    else
      var p := TempPath(u.filename);
      [WriteFile(p), RunModel(p), RemoveFile(p)]
  }

  /**
   * The model always reads a file that was written, and once the request
   * returns its temporary path string is gone and no other path string was
   * added or removed.
   */
  lemma RequestEffectsOnDisk(disk: set<string>, u: Upload)
    ensures ModelReadsExistingFiles(disk, EffectsOf(u))
    ensures WithinLimit(u) ==> Apply(disk, EffectsOf(u)) == disk - {TempPath(u.filename)}
    ensures !WithinLimit(u) ==> Apply(disk, EffectsOf(u)) == disk
  {
    var e := EffectsOf(u);
    if WithinLimit(u) {
      var p := TempPath(u.filename);
      assert e[..0] == [];
      assert e[..1] == [WriteFile(p)];
      assert e[..2] == [WriteFile(p), RunModel(p)];
      assert e[..3] == e;
      assert Apply(disk, e[..1]) == disk + {p};
      assert Apply(disk, e[..2]) == disk + {p};
    }
  }

  /** A size exactly at the limit passes the gate, one byte more does not. */
  lemma GateBoundary(name: string, outcome: ModelOutcome)
    ensures Answer(Upload(name, SizeLimit), outcome) != ErrorResponse(SizeErrorMessage)
    ensures Answer(Upload(name, SizeLimit + 1), outcome) == ErrorResponse(SizeErrorMessage)
  {
  }

  /** The server's disk and the effects the endpoint has had on it. */
  class Server {
    /** The paths that exist on the disk. */
    var disk: set<string>
    /** Every effect on the disk, in order. */
    var journal: seq<DiskEffect>

    constructor (initial: set<string>)
      ensures disk == initial && journal == []
    {
      disk, journal := initial, [];
    }

    /**
     * `transcribe`: refuse an oversized upload before touching the disk;
     * otherwise write it to its temporary path, run the model on it, and
     * remove the file on the failure path and on the success path alike.
     */
    method Transcribe(u: Upload, outcome: ModelOutcome) returns (response: Response)
      modifies this
      ensures response == Answer(u, outcome)
      ensures journal == old(journal) + EffectsOf(u)
      ensures disk == Apply(old(disk), EffectsOf(u))
      ensures WithinLimit(u) ==> disk == old(disk) - {TempPath(u.filename)}
      ensures !WithinLimit(u) ==> disk == old(disk)
    {
      if u.size > SizeLimit {
        return ErrorResponse(SizeErrorMessage);
      }
      var tempPath := TempDir + u.filename;
      RequestEffectsOnDisk(disk, u);
      disk := disk + {tempPath};
      journal := journal + [WriteFile(tempPath)];
      journal := journal + [RunModel(tempPath)];
      if outcome.Raises? {
        disk := disk - {tempPath};
        journal := journal + [RemoveFile(tempPath)];
        return ErrorResponse(FailureMessage);
      }
      disk := disk - {tempPath};
      journal := journal + [RemoveFile(tempPath)];
      response := TextResponse(outcome.text);
    }
  }
}
