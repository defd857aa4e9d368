/**
 * The upload drop zone of the front end (frontend/src/components/FileDrop.tsx):
 * the format and size checks a picked or dropped file must pass, the state
 * the component keeps, and the two display helpers.
 */
module FileDrop {
  import opened Common

  /** The parts of a browser `File` the checks look at. */
  datatype File = File(name: string, mimeType: string, size: nat)

  /** Largest accepted upload: 10 MiB, inclusive. */
  const MaxUploadBytes: nat := 10 * 1024 * 1024

  /** MIME types accepted as they are, compared exactly. */
  const AllowedTypes: seq<string> :=
    ["audio/mpeg", "audio/wav", "audio/x-wav", "audio/webm", "audio/mp4", "audio/m4a", "audio/ogg"]

  /** Extensions accepted, compared after lower-casing. */
  const AllowedExtensions: seq<string> := [".mp3", ".wav", ".webm", ".m4a", ".ogg"]

  const FormatError: string :=
    "Unsupported file format. Please upload an audio file (MP3, WAV, M4A, WebM, OGG)"
  const SizeError: string := "File size exceeds 10MB limit. Please choose a smaller file."

  /** JavaScript's `s.lastIndexOf(c)`: the last position of `c`, or -1. */
  function LastIndexOf(s: string, c: char): (r: int)
    ensures -1 <= r < |s|
    ensures r == -1 <==> c !in s
    ensures 0 <= r ==> s[r] == c
    ensures forall j :: r < j < |s| ==> s[j] != c
  {
    if s == [] then -1
    else if s[|s| - 1] == c then |s| - 1
    else
      assert s == s[..|s| - 1] + [s[|s| - 1]];
      LastIndexOf(s[..|s| - 1], c)
  }

  /** JavaScript's one-argument `s.substring(start)`: `start` is clamped into the string, so the result is always a suffix. */
  function Substring(s: string, start: int): (r: string)
    ensures start <= 0 ==> r == s
    ensures 0 <= start <= |s| ==> r == s[start..]
    ensures |s| < start ==> r == []
    ensures |r| <= |s| && r == s[|s| - |r|..]
  {
    if start <= 0 then s else if start <= |s| then s[start..] else []
  }

  /** Lower-casing of one character (ASCII letters only). */
  function LowerChar(c: char): char {
    if 'A' <= c <= 'Z' then (c as int + 32) as char else c
  }

  /** `s.toLowerCase()`, character by character. */
  function ToLower(s: string): (r: string)
    ensures |r| == |s|
    ensures forall i :: 0 <= i < |s| ==> r[i] == LowerChar(s[i])
  {
    if s == [] then [] else [LowerChar(s[0])] + ToLower(s[1..])
  }

  /**
   * The extension the validator compares: from the last `.` to the end,
   * lower-cased; with no `.` at all, `lastIndexOf` gives -1, `substring`
   * clamps it to 0, and the extension is the whole name lower-cased.
   */
  function Extension(name: string): (ext: string)
    ensures '.' !in name ==> ext == ToLower(name)
    ensures '.' in name ==> DottedSuffix(ext, name)
  {
    var tail := Substring(name, LastIndexOf(name, '.'));
    LastDotStartsTail(name);
    LowerDottedTail(name, tail);
    ToLower(tail)
  }

  /** The suffix from the last `.` starts with that `.` and holds no other. */
  lemma LastDotStartsTail(name: string)
    ensures var tail := Substring(name, LastIndexOf(name, '.'));
      '.' in name ==> 1 <= |tail| <= |name| && tail == name[|name| - |tail|..] && tail[0] == '.' && '.' !in tail[1..]
  {
    var k := LastIndexOf(name, '.');
    if k >= 0 {
      var tail := name[k..];
      assert forall i :: 1 <= i < |tail| ==> tail[i] == name[k + i];
    }
  }

  /**
   * `ext` is a lower-cased suffix of `name` that starts with a `.` and holds
   * no other `.`.
   */
  predicate DottedSuffix(ext: string, name: string) {
    && 1 <= |ext| <= |name|
    && ext == ToLower(name[|name| - |ext|..])
    && ext[0] == '.'
    && '.' !in ext[1..]
  }

  /** Lower-casing a suffix that starts with its only `.` keeps that shape. */
  lemma LowerDottedTail(name: string, tail: string)
    requires '.' in name ==>
      1 <= |tail| <= |name| && tail == name[|name| - |tail|..] && tail[0] == '.' && '.' !in tail[1..]
    ensures '.' in name ==> DottedSuffix(ToLower(tail), name)
  {
    if '.' in name {
      var ext := ToLower(tail);
      LowerKeepsDots(tail);
      assert forall i :: 0 <= i < |ext| - 1 ==> ext[1..][i] == ext[i + 1];
    }
  }

  /** Lower-casing turns no character into a `.` and no `.` into anything else. */
  lemma LowerKeepsDots(s: string)
    ensures forall i :: 0 <= i < |s| ==> (ToLower(s)[i] == '.' <==> s[i] == '.')
  {
  }

  /**
   * The format test: an allowed MIME type, or an allowed extension. An
   * allowed MIME type suffices on its own; without one, the name must hold a
   * `.`, since every allowed extension starts with one.
   */
  predicate IsAllowedFormat(f: File)
    ensures f.mimeType in AllowedTypes ==> IsAllowedFormat(f)
    ensures IsAllowedFormat(f) && f.mimeType !in AllowedTypes ==> '.' in f.name
  {
    LowerKeepsDots(f.name);
    f.mimeType in AllowedTypes || Extension(f.name) in AllowedExtensions
  }

  /** The validator's verdict on one file. */
  datatype Verdict = Accept | RejectFormat | RejectSize

  /**
   * The checks in their order: format first, then size; the first failure
   * decides the verdict.
   */
  function Check(f: File): (v: Verdict)
    ensures v == Accept <==> IsAllowedFormat(f) && f.size <= MaxUploadBytes
    ensures v == RejectFormat <==> !IsAllowedFormat(f)
    ensures v == RejectSize <==> IsAllowedFormat(f) && f.size > MaxUploadBytes
  {
    if !IsAllowedFormat(f) then RejectFormat
    else if f.size > MaxUploadBytes then RejectSize
    else Accept
  }

  /** The message shown for a verdict, if any. */
  function Message(v: Verdict): (m: Option<string>)
    ensures m.None? <==> v == Accept
  {
    match v
    case Accept => None
    case RejectFormat => Some(FormatError)
    case RejectSize => Some(SizeError)
  }

  /** A name with upper-case extension and no MIME type still passes the format test. */
  lemma UpperCaseExtensionAccepted()
    ensures Check(File("x.MP3", "", 1)) == Accept
  {
    var name := "x.MP3";
    assert name[1] == '.' && name[2] != '.' && name[3] != '.' && name[4] != '.';
    assert LastIndexOf(name, '.') == 1;
    assert Substring(name, 1) == ".MP3";
    assert ToLower(".MP3") == ".mp3" by {
      assert ToLower("") == "";
      assert ToLower("3") == "3";
      assert ToLower("P3") == "p3";
      assert ToLower("MP3") == "mp3";
    }
    assert Extension(name) == AllowedExtensions[0];
  }

  /** An `.exe` of unknown type is refused for its format. */
  lemma ExecutableRefused(size: nat)
    ensures Check(File("setup.exe", "application/x-msdownload", size)) == RejectFormat
  {
    var name := "setup.exe";
    assert name[5] == '.';
    var ext := Extension(name);
    assert DottedSuffix(ext, name);
    var tail := name[|name| - |ext|..];
    assert ext == ToLower(tail);
    assert tail[|tail| - 1] == 'e';
    assert ext[|ext| - 1] == 'e';
    EndingInEIsNoAllowedExtension(ext);
    NonAudioIsNoAllowedType("application/x-msdownload");
  }

  /** No allowed extension ends in `e`. */
  lemma EndingInEIsNoAllowedExtension(ext: string)
    requires |ext| >= 1 && ext[|ext| - 1] == 'e'
    ensures ext !in AllowedExtensions
  {
  }

  /** Every allowed MIME type is an `audio/` one. */
  lemma NonAudioIsNoAllowedType(mimeType: string)
    requires |mimeType| >= 2 && mimeType[1] != 'u'
    ensures mimeType !in AllowedTypes
  {
  }

  /** The format error wins over the size error. */
  lemma FormatCheckedFirst(f: File)
    requires !IsAllowedFormat(f) && f.size > MaxUploadBytes
    ensures Message(Check(f)) == Some(FormatError)
  {
  }

  /** The size limit is inclusive: 10 MiB passes, one byte more fails. */
  lemma SizeLimitInclusive(name: string, mimeType: string)
    requires mimeType in AllowedTypes
    ensures Check(File(name, mimeType, 10485760)) == Accept
    ensures Check(File(name, mimeType, 10485761)) == RejectSize
  {
  }

  /** An allowed `.mp3` of 11 MiB is refused for its size. */
  lemma ElevenMebibyteMp3Refused()
    ensures Check(File("talk.mp3", "audio/mpeg", 11 * 1024 * 1024)) == RejectSize
  {
    assert "audio/mpeg" == AllowedTypes[0];
  }

  /**
   * The name shown for the selected file: names over 30 characters are cut
   * to their first 27 characters followed by `...`.
   */
  function DisplayName(name: string): (shown: string)
    ensures |shown| <= 30
    ensures |name| <= 30 ==> shown == name
    ensures |name| > 30 ==> |shown| == 30 && shown == name[..27] + "..."
  {
    if |name| > 30 then name[..27] + "..." else name
  }

  /** A shown name is the start of the real name, with an ellipsis exactly when it was cut. */
  lemma DisplayNameIsPrefix(name: string)
    ensures var shown := DisplayName(name);
      (|name| <= 30 && shown == name) ||
      (|name| > 30 && shown[..|shown| - 3] <= name && shown[|shown| - 3..] == "...")
  {
  }

  /** The unit `formatFileSize` writes a size in. */
  datatype SizeUnit = Bytes | Kilobytes | Megabytes

  /** Bytes below 1024, kilobytes below 1024 * 1024, megabytes from there on. */
  function SizeUnitOf(bytes: nat): (u: SizeUnit)
    ensures u == Bytes <==> bytes < 1024
    ensures u == Kilobytes <==> 1024 <= bytes < 1024 * 1024
    ensures u == Megabytes <==> 1024 * 1024 <= bytes
  {
    if bytes < 1024 then Bytes
    else if bytes < 1024 * 1024 then Kilobytes
    else Megabytes
  }

  function UnitRank(u: SizeUnit): nat {
    match u
    case Bytes => 0
    case Kilobytes => 1
    case Megabytes => 2
  }

  /** A larger file is never written in a smaller unit. */
  lemma SizeUnitMonotone(a: nat, b: nat)
    requires a <= b
    ensures UnitRank(SizeUnitOf(a)) <= UnitRank(SizeUnitOf(b))
  {
  }

  /** The state of the drop zone: the selected file, the error shown, and every file handed to `onFileSelect`. */
  class Dropzone {
    var selectedFile: Option<File>
    var error: Option<string>
    /** The files passed to the `onFileSelect` callback, in call order. */
    var selections: seq<File>

    constructor ()
      ensures selectedFile.None? && error.None? && selections == []
    {
      selectedFile, error, selections := None, None, [];
    }

    /**
     * `validateAndSetFile`: the error is cleared, then the format and size
     * checks run in order; a failure sets its message and returns; a pass
     * selects the file and calls `onFileSelect` once with it.
     */
    method ValidateAndSetFile(file: File)
      modifies this
      ensures error == Message(Check(file))
      ensures Check(file) == Accept ==> selectedFile == Some(file) && selections == old(selections) + [file]
      ensures Check(file) != Accept ==> selectedFile == old(selectedFile) && selections == old(selections)
    {
      error := None;
      var fileExtension := ToLower(Substring(file.name, LastIndexOf(file.name, '.')));
      var isValidType := file.mimeType in AllowedTypes || fileExtension in AllowedExtensions;
      if !isValidType {
        error := Some(FormatError);
        return;
      }
      if file.size > MaxUploadBytes {
        error := Some(SizeError);
        return;
      }
      selectedFile := Some(file);
      selections := selections + [file];
    }

    /** `removeFile`: the selection and the error are both cleared. */
    method RemoveFile()
      modifies this
      ensures selectedFile.None? && error.None? && selections == old(selections)
    {
      selectedFile := None;
      error := None;
    }

    /** `handleDrop`: the error is cleared and only the first dropped file, if any, is validated. */
    method HandleDrop(files: seq<File>)
      modifies this
      ensures files == [] ==> error.None? && selectedFile == old(selectedFile) && selections == old(selections)
      ensures files != [] ==>
        && error == Message(Check(files[0]))
        && selectedFile == (if Check(files[0]) == Accept then Some(files[0]) else old(selectedFile))
        && selections == old(selections) + (if Check(files[0]) == Accept then [files[0]] else [])
    {
      error := None;
      if |files| > 0 {
        ValidateAndSetFile(files[0]);
      }
    }

    /**
     * `handleFileChange`: the first picked file, if any, is validated; an
     * empty or missing pick leaves everything as it was, error included.
     */
    method HandleFileChange(files: Option<seq<File>>)
      modifies this
      ensures (files.None? || files.value == []) ==>
        error == old(error) && selectedFile == old(selectedFile) && selections == old(selections)
      ensures files.Some? && files.value != [] ==>
        && error == Message(Check(files.value[0]))
        && selectedFile == (if Check(files.value[0]) == Accept then Some(files.value[0]) else old(selectedFile))
        && selections == old(selections) + (if Check(files.value[0]) == Accept then [files.value[0]] else [])
    {
      if files.Some? && |files.value| > 0 {
        ValidateAndSetFile(files.value[0]);
      }
    }
  }
}
