/** The request logic of the pitch endpoint around the audio library: the pitch estimate of
    the first analysis block, the fallback frequency, the semitone shift and its range
    check, and the extension of the temporary upload file. */
module AudioRequest {
  import opened Outcomes
  import opened JavaInt
  import opened Text
  import opened NoteMapper
  import opened Pcm
  import opened PitchDetector

  /** Frames read from the converted file for the pitch estimate. */
  const AnalysisFrames: nat := 8192

  /** A3, used when no pitch was detected. */
  const FallbackPitchHz: real := 220.0

  /** The largest shift, in semitones, the endpoint accepts in either direction. */
  const MaxShift: int := 24

  /** The pitch estimate of the first block read from the converted file. `buffer` holds
      room for 8192 frames and `bytesRead` is what the read call returned (-1 at the end of
      the stream). Nothing here can fail, so the estimate is -1 or a frequency above 80 Hz. */
  method DetectPitchFromWav(buffer: seq<byte>, bytesRead: int, frameSize: nat, channels: nat, sampleRate: real)
    returns (pitch: real)
    requires |buffer| == AnalysisFrames * frameSize && bytesRead <= |buffer| && channels > 0
    ensures bytesRead <= 0 ==> pitch == -1.0
    ensures bytesRead > 0 ==>
              var s := MonoBlock(buffer, bytesRead, frameSize, channels);
              && (NonePositive(s, MinPeriod(sampleRate), MaxPeriod(sampleRate, |s|)) ==> pitch == -1.0)
              && (!NonePositive(s, MinPeriod(sampleRate), MaxPeriod(sampleRate, |s|)) ==>
                    exists best :: IsFirstBest(s, MinPeriod(sampleRate), MaxPeriod(sampleRate, |s|), best)
                                && pitch == PitchOfPeriod(sampleRate, best))
    ensures pitch == -1.0 || pitch > 80.0
  {
    if bytesRead > 0 {
      var samples := ConvertToMonoFloat(buffer, bytesRead, frameSize, channels);
      pitch := DetectPitchAutocorrelation(samples, sampleRate);
    } else {
      pitch := -1.0;
    }
  }

  /** The frequency the shift is computed from: a detected frequency that is not positive
      is replaced by the fallback. */
  function EffectivePitch(detected: real): (hz: real)
    ensures hz > 0.0
    ensures hz == detected || hz == FallbackPitchHz
    ensures detected > 0.0 ==> hz == detected
  {
    if detected <= 0.0 then FallbackPitchHz else detected
  }

  datatype ShiftError =
    | InvalidNote(reason: NoteError)  // the target note does not parse
    | TooExtreme(steps: int)          // the shift is more than 24 semitones either way

  /** The semitone shift of a request, computed exactly. Without a target note it is the
      `shift` parameter; with one it is the target's MIDI number minus the MIDI number of
      the (fallback-corrected) detected frequency. `hzToMidi` is the floating-point
      frequency-to-MIDI rounding, left abstract. A shift is accepted exactly when it lies
      in [-24, 24]. */
  function SemitoneSteps(shift: int, targetNote: string, detected: real, hzToMidi: real -> int)
    : (r: Result<int, ShiftError>)
    ensures r.Ok? ==> -MaxShift <= r.value <= MaxShift
    ensures targetNote == "" ==>
              && (r.Ok? <==> -MaxShift <= shift <= MaxShift)
              && (r.Ok? ==> r.value == shift)
              && (r.Err? ==> r.error == TooExtreme(shift))
    ensures targetNote != "" && NoteToMidi(targetNote).Err? ==>
              r == Err(InvalidNote(NoteToMidi(targetNote).error))
    ensures targetNote != "" && NoteToMidi(targetNote).Ok? ==>
              var steps := NoteToMidi(targetNote).value - hzToMidi(EffectivePitch(detected));
              && (r.Ok? <==> -MaxShift <= steps <= MaxShift)
              && (r.Ok? ==> r.value == steps)
              && (r.Err? ==> r.error == TooExtreme(steps))
  {
    var steps :=
      if targetNote == "" then Ok(shift)
      else match NoteToMidi(targetNote)
        case Err(e) => Err(InvalidNote(e))
        case Ok(target) => Ok(target - hzToMidi(EffectivePitch(detected)));
    match steps
    case Err(e) => Err(e)
    case Ok(s) => if s < -MaxShift || s > MaxShift then Err(TooExtreme(s)) else Ok(s)
  }

  /** The same decision in the controller's `int` arithmetic: the rounded MIDI number is
      narrowed to `int`, the subtraction wraps, and the range check is
      `Math.abs(steps) > 24`. */
  function SemitoneStepsAsWritten(shift: int, targetNote: string, detected: real, hzToMidi: real -> int)
    : (r: Result<int, ShiftError>)
    requires IsInt32(shift)
    ensures r.Ok? ==> (-MaxShift <= r.value <= MaxShift) || r.value == INT_MIN
    ensures targetNote == "" ==>
              && (r.Ok? <==> (-MaxShift <= shift <= MaxShift) || shift == INT_MIN)
              && (r.Ok? ==> r.value == shift)
  {
    var steps :=
      if targetNote == "" then Ok(shift)
      else match NoteToMidiAsWritten(targetNote)
        case Err(e) => Err(InvalidNote(e))
        case Ok(target) => Ok(Wrap32(target - Wrap32(hzToMidi(EffectivePitch(detected)))));
    match steps
    case Err(e) => Err(e)
    case Ok(s) => if Abs32(s) > MaxShift then Err(TooExtreme(s)) else Ok(s)
  }

  /** Away from the two overflows, the controller's arithmetic decides as the exact model. */
  lemma ShiftAsWrittenAgrees(shift: int, targetNote: string, detected: real, hzToMidi: real -> int)
    requires IsInt32(shift) && shift != INT_MIN
    requires IsInt32(hzToMidi(EffectivePitch(detected)))
    requires targetNote != "" && NoteToMidi(targetNote).Ok? ==>
               var steps := NoteToMidi(targetNote).value - hzToMidi(EffectivePitch(detected));
               IsInt32(steps) && steps != INT_MIN
    requires !(NoteToMidi(targetNote).Err? && NoteToMidi(targetNote).error.MidiOutOfRange?)
    ensures SemitoneStepsAsWritten(shift, targetNote, detected, hzToMidi)
         == SemitoneSteps(shift, targetNote, detected, hzToMidi)
  {
    if targetNote == "" {
      RangeCheckAgrees(shift);
    } else {
      AsWrittenAgrees(targetNote);
      var source := hzToMidi(EffectivePitch(detected));
      assert Wrap32(source) == source;
      if NoteToMidi(targetNote).Ok? {
        var steps := NoteToMidi(targetNote).value - source;
        assert Wrap32(steps) == steps;
        RangeCheckAgrees(steps);
      }
    }
  }

  /** For every `int` but the most negative, `Math.abs(s) > 24` is the range check. */
  lemma RangeCheckAgrees(s: int)
    requires IsInt32(s) && s != INT_MIN
    ensures Abs32(s) > MaxShift <==> s < -MaxShift || s > MaxShift
  {
  }

  /** `shift=-2147483648`: `Math.abs` returns the value itself, which is negative, so the
      controller lets the most extreme shift through; the exact check refuses it. */
  lemma MinIntShiftPassesAsWritten(detected: real, hzToMidi: real -> int)
    ensures SemitoneStepsAsWritten(INT_MIN, "", detected, hzToMidi) == Ok(INT_MIN)
    ensures SemitoneSteps(INT_MIN, "", detected, hzToMidi) == Err(TooExtreme(INT_MIN))
  {
  }

  /** Target note "C#357913945" on a clip whose pitch is not detected: the MIDI number
      wraps to 57, the fallback's own MIDI number, so the controller accepts a shift of 0;
      the exact parser refuses the note. */
  lemma OverflowingNotePassesAsWritten(hzToMidi: real -> int)
    requires hzToMidi(FallbackPitchHz) == 57
    ensures SemitoneStepsAsWritten(0, "C#357913945", -1.0, hzToMidi) == Ok(0)
    ensures SemitoneSteps(0, "C#357913945", -1.0, hzToMidi) == Err(InvalidNote(MidiOutOfRange(4294967353)))
  {
    WrappedOctave();
  }

  /** The suffix given to the temporary upload file: from the last '.' of the original
      name to its end, or ".tmp" when there is no name or no '.'. */
  function GetFileExtension(filename: Option<string>): (ext: string)
    ensures filename.None? || '.' !in filename.value ==> ext == ".tmp"
    ensures filename.Some? && '.' in filename.value ==>
              && 1 <= |ext| <= |filename.value|
              && EndsWith(filename.value, ext)
              && ext[0] == '.'
              && '.' !in ext[1..]
  {
    if filename.None? || filename.value == "" then ".tmp"
    else
      var lastDot := LastIndexOf(filename.value, '.');
      if lastDot >= 0 then filename.value[lastDot..] else ".tmp"
  }
}
