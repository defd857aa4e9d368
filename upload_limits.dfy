/**
 * The front end's upload limit (10 MiB = 10,485,760 bytes) and the back
 * end's (10,000,000 bytes) differ: a file between the two passes the drop
 * zone's check and is then refused by the transcription endpoint.
 */
module UploadLimits {
  import FileDrop
  import Transcription

  /** The two limits differ by 485,760 bytes, the front end's being larger. */
  lemma FrontEndLimitIsLarger()
    ensures FileDrop.MaxUploadBytes == Transcription.SizeLimit + 485760
  {
  }

  /**
   * A file of an allowed format whose size lies in (10,000,000, 10,485,760]
   * is accepted by the drop zone and answered with the size error by the
   * endpoint, whatever the model would have produced.
   */
  lemma AcceptedThenRefused(f: FileDrop.File, outcome: Transcription.ModelOutcome)
    requires FileDrop.IsAllowedFormat(f)
    requires Transcription.SizeLimit < f.size <= FileDrop.MaxUploadBytes
    ensures FileDrop.Check(f) == FileDrop.Accept
    ensures Transcription.Answer(Transcription.Upload(f.name, f.size), outcome)
         == Transcription.ErrorResponse(Transcription.SizeErrorMessage)
  {
  }

  /** Such a file exists: an MP3 one byte over the back end's limit. */
  lemma GapIsInhabited()
    ensures FileDrop.Check(FileDrop.File("talk.mp3", "audio/mpeg", 10000001)) == FileDrop.Accept
    ensures Transcription.Answer(Transcription.Upload("talk.mp3", 10000001), Transcription.Raises)
         == Transcription.ErrorResponse(Transcription.SizeErrorMessage)
  {
    assert "audio/mpeg" == FileDrop.AllowedTypes[0];
  }
}
