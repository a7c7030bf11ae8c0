/** The browser form's input rules: the semitone slider and number box kept in step, the
    checks run before an upload, the multipart fields sent, and the download name used when
    the response carries none. */
module UploadForm {
  import opened Outcomes
  import opened Decimal
  import opened JavaInt
  import opened Text

  /** A JavaScript number as `Number(text)` produces it; its exact text parsing is not
      modelled. */
  datatype JsNumber = NaN | NegInfinity | PosInfinity | Finite(x: real)

  /** The largest semitone value either control holds, in either direction. */
  const SemitoneLimit: real := 12.0

  /** The number-box entry after the input handler: NaN becomes 0, then the value is
      clamped to [-12, 12]. */
  function ClampSemitone(entry: JsNumber): (v: real)
    ensures -SemitoneLimit <= v <= SemitoneLimit
    ensures entry.NaN? ==> v == 0.0
    ensures entry.Finite? && -SemitoneLimit <= entry.x <= SemitoneLimit ==> v == entry.x
    ensures entry.NegInfinity? || (entry.Finite? && entry.x < -SemitoneLimit) ==> v == -SemitoneLimit
    ensures entry.PosInfinity? || (entry.Finite? && entry.x > SemitoneLimit) ==> v == SemitoneLimit
  {
    match entry
    case NaN => 0.0
    case NegInfinity => -SemitoneLimit
    case PosInfinity => SemitoneLimit
    case Finite(x) => if x < -SemitoneLimit then -SemitoneLimit else if x > SemitoneLimit then SemitoneLimit else x
  }

  /** Clamping a value the handler has already clamped changes nothing. */
  lemma ClampIdempotent(entry: JsNumber)
    ensures ClampSemitone(Finite(ClampSemitone(entry))) == ClampSemitone(entry)
  {
  }

  /** The two semitone controls: the range slider and the number box beside it. */
  class SemitoneControls {
    var slider: real
    var numberBox: real

    constructor(initial: real)
      ensures slider == initial && numberBox == initial
    {
      slider := initial;
      numberBox := initial;
    }

    /** Moving the slider copies its value into the number box. */
    method OnSliderInput()
      modifies this
      ensures slider == old(slider) && numberBox == old(slider)
    {
      numberBox := slider;
    }

    /** Typing into the number box: the entry is read as a number, NaN is replaced by 0,
        the value is clamped to [-12, 12], and both controls take the result. */
    method OnNumberInput(entry: JsNumber)
      modifies this
      ensures numberBox == ClampSemitone(entry) && slider == ClampSemitone(entry)
    {
      var v := entry;
      if v.NaN? {
        v := Finite(0.0);
      }
      if v.NegInfinity? || (v.Finite? && v.x < -SemitoneLimit) {
        v := Finite(-SemitoneLimit);
      }
      if v.PosInfinity? || (v.Finite? && v.x > SemitoneLimit) {
        v := Finite(SemitoneLimit);
      }
      numberBox := v.x;
      slider := v.x;
    }

    /** The clear button puts both controls back to 0. */
    method Clear()
      modifies this
      ensures slider == 0.0 && numberBox == 0.0
    {
      slider := 0.0;
      numberBox := 0.0;
    }
  }

  /** The selected file as the browser describes it. */
  datatype FileInfo = FileInfo(name: string, mimeType: string, size: nat)

  datatype UploadError =
    | NoFileSelected     // the file input is empty
    | NotAnMp3           // neither an audio type nor a ".mp3" name
    | FileTooLarge       // more than 50 MiB
    | MissingTargetNote  // note mode with a blank note

  /** One part of the multipart request body. */
  datatype FormEntry =
    | FileField(key: string, file: FileInfo, filename: string)
    | TextField(key: string, value: string)

  /** The upload limit, 50 MiB. */
  const MaxUploadBytes: nat := 50 * 1024 * 1024

  /** The name ends with ".mp3" in any mix of cases: a '.', an 'm' or 'M', a 'p' or 'P',
      and a '3'. */
  predicate Mp3Suffix(name: string)
  {
    var n := |name|;
    && n >= 4
    && name[n - 4] == '.'
    && (name[n - 3] == 'm' || name[n - 3] == 'M')
    && (name[n - 2] == 'p' || name[n - 2] == 'P')
    && name[n - 1] == '3'
  }

  /** A file passes the type check when its MIME type mentions "audio" or its name,
      lower-cased, ends with ".mp3"; every other file is refused. */
  predicate AcceptedType(f: FileInfo): (ok: bool)
    ensures ok <==> Contains(f.mimeType, "audio") || Mp3Suffix(f.name)
    ensures Contains(f.mimeType, "audio") ==> ok
    ensures EndsWith(f.name, ".mp3") || EndsWith(f.name, ".MP3") ==> ok
  {
    LowerMp3(f.name);
    Contains(f.mimeType, "audio") || EndsWith(AsciiLower(f.name), ".mp3")
  }

  lemma LowerMp3(name: string)
    ensures EndsWith(AsciiLower(name), ".mp3") <==> Mp3Suffix(name)
    ensures EndsWith(name, ".mp3") || EndsWith(name, ".MP3") ==> Mp3Suffix(name)
  {
    var n := |name|;
    if n >= 4 {
      var tail := name[n - 4..];
      assert tail == [name[n - 4], name[n - 3], name[n - 2], name[n - 1]];
      assert AsciiLower(name)[n - 4..] ==
        [AsciiLowerChar(name[n - 4]), AsciiLowerChar(name[n - 3]), AsciiLowerChar(name[n - 2]), AsciiLowerChar(name[n - 1])];
      assert ".mp3" == ['.', 'm', 'p', '3'] && ".MP3" == ['.', 'M', 'P', '3'];
    }
  }

  /** The submit handler up to the request: the checks in order, each ending the handler
      with its message, then the fields appended — the file under "file", and either the
      slider's whole-number value under "shift" (shift mode) or the trimmed note under
      "targetNote" (any other mode). `files` is the file input's list and `slider` the
      slider's value. */
  method BuildSubmission(files: seq<FileInfo>, mode: string, slider: int, noteInput: string)
    returns (r: Result<seq<FormEntry>, UploadError>)
    ensures r == Err(NoFileSelected) <==> files == []
    ensures r == Err(NotAnMp3) <==> files != [] && !AcceptedType(files[0])
    ensures r == Err(FileTooLarge) <==>
              files != [] && AcceptedType(files[0]) && files[0].size > MaxUploadBytes
    ensures r == Err(MissingTargetNote) <==>
              && files != [] && AcceptedType(files[0]) && files[0].size <= MaxUploadBytes
              && mode != "shift" && JsTrim(noteInput) == []
    ensures r.Ok? ==>
              && |r.value| == 2
              && r.value[0] == FileField("file", files[0], files[0].name)
              && (mode == "shift" ==> r.value[1] == TextField("shift", IntToString(slider)))
              && (mode != "shift" ==> r.value[1] == TextField("targetNote", JsTrim(noteInput)))
  {
    if files == [] {
      return Err(NoFileSelected);
    }
    var file := files[0];
    if !Contains(file.mimeType, "audio") && !EndsWith(AsciiLower(file.name), ".mp3") {
      return Err(NotAnMp3);
    }
    if file.size > MaxUploadBytes {
      return Err(FileTooLarge);
    }
    var entries := [FileField("file", file, file.name)];
    if mode == "shift" {
      entries := entries + [TextField("shift", IntToString(slider))];
    } else {
      var note := JsTrim(noteInput);
      if note == [] {
        return Err(MissingTargetNote);
      }
      entries := entries + [TextField("targetNote", note)];
    }
    r := Ok(entries);
  }

  /** The "shift" field the form sends is read back by the server's `int` parser as the
      slider's value. */
  lemma ShiftFieldReadsBack(slider: int)
    requires IsInt32(slider)
    ensures ParseInt32(IntToString(slider)) == Some(slider)
  {
    ParseOfIntToString(slider);
  }

  /** The regular expression `\.[^/.]+$` matches at `d`: a '.' followed, up to the end of
      the name, by at least one character and by no '.' or '/'. */
  predicate ExtensionAt(name: string, d: int)
  {
    && 0 <= d < |name| - 1
    && name[d] == '.'
    && forall j :: d < j < |name| ==> name[j] != '.' && name[j] != '/'
  }

  /** The name with its extension removed, as the regular-expression replace does it: the
      name is cut at the (only possible) match, or left whole when there is none. */
  function StripExtension(name: string): (base: string)
    ensures forall d :: ExtensionAt(name, d) ==> base == name[..d]
    ensures (forall d :: !ExtensionAt(name, d)) ==> base == name
  {
    var d := LastIndexOf(name, '.');
    if 0 <= d < |name| - 1 && (forall j :: d < j < |name| ==> name[j] != '/') then
      assert ExtensionAt(name, d);
      name[..d]
    else
      name
  }

  /** An extension added to any name is exactly what is stripped again. */
  lemma StripAppended(base: string, ext: string)
    requires |ext| >= 2 && ext[0] == '.'
    requires forall j :: 1 <= j < |ext| ==> ext[j] != '.' && ext[j] != '/'
    ensures StripExtension(base + ext) == base
  {
    var name := base + ext;
    assert ExtensionAt(name, |base|);
    assert name[..|base|] == base;
  }

  /** The download name when the response has no usable Content-Disposition header: the
      original name without its extension, then "_shift_<n>st.mp3" in shift mode or
      "_to_<note>.mp3" with the trimmed note otherwise. Its own extension is the ".mp3"
      appended. */
  function FallbackFilename(originalName: string, mode: string, slider: int, noteInput: string)
    : (filename: string)
    ensures EndsWith(filename, ".mp3")
    ensures |StripExtension(originalName)| <= |filename|
    ensures filename[..|StripExtension(originalName)|] == StripExtension(originalName)
    ensures StripExtension(filename) + ".mp3" == filename
    ensures mode == "shift" ==> EndsWith(filename, "_shift_" + IntToString(slider) + "st" + ".mp3")
    ensures mode != "shift" ==> EndsWith(filename, "_to_" + JsTrim(noteInput) + ".mp3")
  {
    var base := StripExtension(originalName);
    if mode == "shift" then
      var tag := "_shift_" + IntToString(slider) + "st";
      AppendedNameFacts(base, tag);
      base + tag + ".mp3"
    else
      var tag := "_to_" + JsTrim(noteInput);
      AppendedNameFacts(base, tag);
      base + tag + ".mp3"
  }

  /** What the fallback name keeps of its parts: the base in front, the tag and ".mp3" at
      the end, and ".mp3" as the extension the pattern strips. */
  lemma AppendedNameFacts(base: string, tag: string)
    ensures EndsWith(base + tag + ".mp3", ".mp3")
    ensures EndsWith(base + tag + ".mp3", tag + ".mp3")
    ensures |base| <= |base + tag + ".mp3"| && (base + tag + ".mp3")[..|base|] == base
    ensures StripExtension(base + tag + ".mp3") + ".mp3" == base + tag + ".mp3"
  {
    Mp3IsExtension();
    StripAppended(base + tag, ".mp3");
    assert base + tag + ".mp3" == base + (tag + ".mp3");
    EndsWithAppended(base, tag + ".mp3");
    EndsWithAppended(base + tag, ".mp3");
  }

  lemma Mp3IsExtension()
    ensures |".mp3"| >= 2 && ".mp3"[0] == '.'
    ensures forall j :: 1 <= j < |".mp3"| ==> ".mp3"[j] != '.' && ".mp3"[j] != '/'
  {
  }

  /** A name with an extension: the fallback download is named from the name before it. */
  lemma FallbackAfterExtension(base: string, ext: string, mode: string, slider: int, noteInput: string)
    requires |ext| >= 2 && ext[0] == '.'
    requires forall j :: 1 <= j < |ext| ==> ext[j] != '.' && ext[j] != '/'
    ensures mode == "shift" ==>
              FallbackFilename(base + ext, mode, slider, noteInput) == base + "_shift_" + IntToString(slider) + "st.mp3"
    ensures mode != "shift" ==>
              FallbackFilename(base + ext, mode, slider, noteInput) == base + "_to_" + JsTrim(noteInput) + ".mp3"
  {
    StripAppended(base, ext);
    var n := IntToString(slider);
    assert (base + ("_shift_" + n + "st")) + ".mp3" == base + "_shift_" + n + "st.mp3";
    assert (base + ("_to_" + JsTrim(noteInput))) + ".mp3" == base + "_to_" + JsTrim(noteInput) + ".mp3";
  }

  /** A name the regular expression does not match is used whole. */
  lemma FallbackWithoutExtension(name: string, mode: string, slider: int, noteInput: string)
    requires forall d :: !ExtensionAt(name, d)
    ensures mode == "shift" ==>
              FallbackFilename(name, mode, slider, noteInput) == name + "_shift_" + IntToString(slider) + "st.mp3"
    ensures mode != "shift" ==>
              FallbackFilename(name, mode, slider, noteInput) == name + "_to_" + JsTrim(noteInput) + ".mp3"
  {
    var n := IntToString(slider);
    assert (name + ("_shift_" + n + "st")) + ".mp3" == name + "_shift_" + n + "st.mp3";
    assert (name + ("_to_" + JsTrim(noteInput))) + ".mp3" == name + "_to_" + JsTrim(noteInput) + ".mp3";
  }

  /** For an uploaded "name.mp3" the fallback download is named from "name". */
  lemma FallbackForMp3(base: string, slider: int, noteInput: string)
    ensures FallbackFilename(base + ".mp3", "shift", slider, noteInput)
         == base + "_shift_" + IntToString(slider) + "st.mp3"
    ensures FallbackFilename(base + ".mp3", "note", slider, noteInput)
         == base + "_to_" + JsTrim(noteInput) + ".mp3"
  {
    Mp3IsExtension();
    FallbackAfterExtension(base, ".mp3", "shift", slider, noteInput);
    assert "note" != "shift";
    FallbackAfterExtension(base, ".mp3", "note", slider, noteInput);
  }
}
