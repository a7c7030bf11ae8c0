# Audio pitch changer: request logic, PCM coding and upload form

A Dafny model of the hand-written logic of the Audio-Pitch-Changer service. The server
takes an uploaded audio file and either a semitone shift or a target note. It estimates
the clip's pitch, decides how many semitones to shift, and returns the shifted audio.
The browser form clamps the semitone controls, checks the upload and names the download.

The audio library (time stretching, resampling, the dispatcher) and all I/O stay outside
the model. What is modelled is the logic around them:

- `notes.dfy`, module `NoteMapper`: the note-name parser `noteToMidi`. Digits and '-' form
  the octave text and the rest, upper-cased, is looked up in the 17-entry pitch-class table.
  The parser is modelled twice. `NoteToMidiAsWritten` follows the controller's 32-bit
  arithmetic. `NoteToMidi` computes exactly and rejects a MIDI number outside `int`; the
  rest of the model uses this one.
- `controller.dfy`, module `AudioRequest`: the pitch estimate of the first 8192 frames, the
  220 Hz fallback, the semitone decision with its range check of 24 semitones, and the
  extension of the temporary upload file.
- `pcm.dfy`, module `Pcm`: 16-bit little-endian decoding and the channel down-mix of the
  analysis block (a method filling an array). Also the output writer, a class whose
  `buffer` field grows by two bytes per processed sample and is written out only when
  non-empty.
- `pitch.dfy`, module `PitchDetector`: the autocorrelation period search as a method over an
  array. It is proved to return the first period with the largest positive correlation,
  or the sentinel.
- `client.dfy`, module `UploadForm`: the semitone clamp and the two controls kept in step
  (a class), the submit checks and the fields sent, and the fallback download name with
  the extension-stripping regular expression.
- `javaint.dfy`, `decimal.dfy`, `text.dfy`, `outcomes.dfy`: Java `int` wrap-around,
  `Math.abs`, float-to-int truncation and `Integer.parseInt`; decimal text; the string
  operations the code uses (ASCII case mapping, `includes`, `endsWith`, `lastIndexOf`,
  JavaScript `trim`); `Option` and `Result`.

Samples and frequencies are `real`. Java `byte` values are the `byte` newtype (0..255, the
bit pattern), and the sign of the high byte is applied when decoding. The detected-pitch to
MIDI conversion `hzToMidi` is a function parameter of the semitone decision.

Notes on the arithmetic and the edge cases of the code:

- The period bounds `sampleRate / 800` and `sampleRate / 80` are truncated toward zero.
- An input sample of -1.0 encodes to -32767. The 16-bit value -32768 is never written.
- When no audio bytes were produced, no output file is written.
- When the sample rate lies in [80, 800) Hz and the block holds at least four samples,
  the search includes period 0. If it wins, the result is the sentinel -1. Below 80 Hz,
  for a negative rate, or for a block of fewer than four samples, no period is searched.

The ASCII case mappings `Text.AsciiUpper` and `Text.AsciiLower` (for `toUpperCase` and
`toLowerCase`) and the suffix test `Text.EndsWith` (for `endsWith`) are plain definitions
without contracts of their own. Their properties are stated by the members that use them:
`NoteMapper.UpperCommutes`, `NoteMapper.CaseInsensitive`, `UploadForm.AcceptedType` and
`UploadForm.FallbackFilename`.

## Model

| member | source | states |
|---|---|---|
| NoteMapper.NoteToMidi | src/main/java/com/example/pitchchanger/Controller/AudioController.java:392-415 | fails with MissingOctave exactly when the note holds no digit or '-'; a result is an `int` and its upper-cased token is in the table; an unknown-token error names a token outside the table |
| NoteMapper.MidiReadsBack | src/main/java/com/example/pitchchanger/Controller/AudioController.java:409-414 | a parsed MIDI number mod 12 is the table index of the note's token, and its `value / 12 - 1` is the parsed octave |
| NoteMapper.KnownNote | src/main/java/com/example/pitchchanger/Controller/AudioController.java:402-414 | a note whose octave text parses, whose token is in the table and whose MIDI number fits in `int` gives `(octave + 1) * 12 + index` |
| NoteMapper.UnknownNote | src/main/java/com/example/pitchchanger/Controller/AudioController.java:405-411 | a note with a parsable octave and a token outside the table fails with that token |
| NoteMapper.OverflowingNote | src/main/java/com/example/pitchchanger/Controller/AudioController.java:414 | a known token with an octave whose MIDI number leaves `int` is rejected by the exact parser and wrapped by the 32-bit one |
| NoteMapper.OctaveText | src/main/java/com/example/pitchchanger/Controller/AudioController.java:403 | the octave text holds only digits and '-' |
| NoteMapper.NameText | src/main/java/com/example/pitchchanger/Controller/AudioController.java:402 | the name text holds no digit and no '-' |
| NoteMapper.NoteParts | src/main/java/com/example/pitchchanger/Controller/AudioController.java:402-403 | a name without digits or '-' followed by octave text splits back into exactly those parts |
| NoteMapper.SameParts | src/main/java/com/example/pitchchanger/Controller/AudioController.java:402-403 | notes equal up to ASCII case have the same octave text and the same upper-cased token |
| NoteMapper.UpperCommutes | src/main/java/com/example/pitchchanger/Controller/AudioController.java:402-403 | upper-casing commutes with both filters |
| NoteMapper.CaseInsensitive | src/main/java/com/example/pitchchanger/Controller/AudioController.java:402-411 | notes equal up to ASCII case give the same result, in both parser versions |
| NoteMapper.Enharmonic | src/main/java/com/example/pitchchanger/Controller/AudioController.java:393-414 | two names whose upper-cased tokens share a table index give the same result followed by any octave text |
| NoteMapper.TableSpellings | src/main/java/com/example/pitchchanger/Controller/AudioController.java:393-400 | every table key is its own upper-case form and holds no digit or '-' |
| NoteMapper.EnharmonicSpellings | src/main/java/com/example/pitchchanger/Controller/AudioController.java:393-400 | any two table spellings of the same pitch class (C#/DB, D#/EB, F#/GB, G#/AB, A#/BB) give the same result for every octave text |
| NoteMapper.ReferenceNotes | src/main/java/com/example/pitchchanger/Controller/AudioController.java:414 | "A4" is 69 and "C-1" is 0 |
| NoteMapper.UnknownTokens | src/main/java/com/example/pitchchanger/Controller/AudioController.java:410-411 | "H", "e#" and "Cb" followed by any parsable octave fail with the unknown tokens "H", "E#" and "CB" |
| NoteMapper.UnknownWithOctave | src/main/java/com/example/pitchchanger/Controller/AudioController.java:402-411 | a name outside the table (after upper-casing) followed by a parsable octave fails with the upper-cased name |
| NoteMapper.FormatNoteRoundTrip | src/main/java/com/example/pitchchanger/Controller/AudioController.java:392-415 | every `int` MIDI number, written as sharp name plus octave, parses back to itself |
| NoteMapper.NoteToMidiAsWritten | src/main/java/com/example/pitchchanger/Controller/AudioController.java:402-414 | the controller's parser with the `int` wrap of line 414: fails with MissingOctave exactly when the note holds no digit or '-'; a result is an `int` and its token is in the table; an unknown-token error names a token outside the table; it never reports an out-of-range MIDI number |
| NoteMapper.AsWrittenAgrees | src/main/java/com/example/pitchchanger/Controller/AudioController.java:414 | the 32-bit parser agrees with the exact one except where the exact MIDI number leaves `int`, where it returns the wrapped number |
| NoteMapper.WrappedOctave | src/main/java/com/example/pitchchanger/Controller/AudioController.java:414 | "C#357913945" gives 57 in 32-bit arithmetic; the exact parser reports 4294967353 out of range |
| AudioRequest.DetectPitchFromWav | src/main/java/com/example/pitchchanger/Controller/AudioController.java:302-319 | a read of no bytes gives -1; otherwise the estimate is that of the autocorrelation search over the down-mixed block: -1 when no period in the search range correlates positively, else the sample rate over the first period with the largest correlation; any estimate is -1 or above 80 Hz |
| AudioRequest.EffectivePitch | src/main/java/com/example/pitchchanger/Controller/AudioController.java:63-67 | the pitch used is positive: the detected one when positive, else 220 Hz |
| AudioRequest.SemitoneSteps | src/main/java/com/example/pitchchanger/Controller/AudioController.java:69-79 | without a target note the shift is the `shift` parameter, else target MIDI minus the MIDI of the effective pitch; a bad note is reported with the parser's error; the request is accepted exactly when the steps lie in [-24, 24], and otherwise refused as too extreme with those steps |
| AudioRequest.RangeCheckAgrees | src/main/java/com/example/pitchchanger/Controller/AudioController.java:77 | for every `int` but -2^31, `Math.abs(s) > 24` holds exactly when `s` lies outside [-24, 24] |
| AudioRequest.SemitoneStepsAsWritten | src/main/java/com/example/pitchchanger/Controller/AudioController.java:69-79 | the controller's decision in `int` arithmetic: an accepted shift lies in [-24, 24] or is -2^31; without a target note the shift is accepted exactly when it lies in [-24, 24] or is -2^31, and is returned unchanged |
| AudioRequest.ShiftAsWrittenAgrees | src/main/java/com/example/pitchchanger/Controller/AudioController.java:69-79 | away from the two overflows, the controller's 32-bit decision equals the exact one |
| AudioRequest.MinIntShiftPassesAsWritten | src/main/java/com/example/pitchchanger/Controller/AudioController.java:77-79 | shift -2147483648 passes the 32-bit check and fails the exact one |
| AudioRequest.OverflowingNotePassesAsWritten | src/main/java/com/example/pitchchanger/Controller/AudioController.java:72-79 | target "C#357913945" with no detected pitch is accepted as a shift of 0 in 32-bit arithmetic and rejected exactly |
| AudioRequest.GetFileExtension | src/main/java/com/example/pitchchanger/Controller/AudioController.java:380-386 | ".tmp" without a name or without a '.'; otherwise a suffix of the name that starts with '.' and holds no other '.' |
| Pcm.DecodeSample | src/main/java/com/example/pitchchanger/Controller/AudioController.java:332 | a decoded sample is a 16-bit signed value |
| Pcm.Clamp | src/main/java/com/example/pitchchanger/Controller/AudioController.java:227 | the clamped sample lies in [-1, 1], equals the input inside it and saturates outside |
| Pcm.ToPcm | src/main/java/com/example/pitchchanger/Controller/AudioController.java:227-230 | the encoded value lies in [-32767, 32767] and keeps the sign of the sample |
| Pcm.LowByte | src/main/java/com/example/pitchchanger/Controller/AudioController.java:233 | the byte written first is congruent to the value mod 256 |
| Pcm.HighByte | src/main/java/com/example/pitchchanger/Controller/AudioController.java:234 | the byte written second is congruent to the arithmetically shifted value mod 256 |
| Pcm.EncodeSample | src/main/java/com/example/pitchchanger/Controller/AudioController.java:227-234 | two bytes per sample that decode to the sample's 16-bit value |
| Pcm.EncodeAll | src/main/java/com/example/pitchchanger/Controller/AudioController.java:225-235 | two bytes per sample |
| Pcm.DecodeAll | src/main/java/com/example/pitchchanger/Controller/AudioController.java:330-332 | one value per byte pair |
| Pcm.DecodeEncodeSample | src/main/java/com/example/pitchchanger/Controller/AudioController.java:230-234 | low byte then high byte decode back to the 16-bit value |
| Pcm.DecodeEncodeAll | src/main/java/com/example/pitchchanger/Controller/AudioController.java:225-235 | the writer's bytes decode, pair by pair, to the clamped and truncated samples |
| Pcm.EncodeAllAppend | src/main/java/com/example/pitchchanger/Controller/AudioController.java:225-235 | encoding two blocks one after the other gives the concatenation of their encodings |
| Pcm.PcmFullScale | src/main/java/com/example/pitchchanger/Controller/AudioController.java:227-230 | 1.0 and above give 32767, -1.0 and below give -32767, 0.0 gives 0 |
| Pcm.ToPcmMonotone | src/main/java/com/example/pitchchanger/Controller/AudioController.java:227-230 | encoding never reverses the order of two samples |
| Pcm.ChannelValue | src/main/java/com/example/pitchchanger/Controller/AudioController.java:330-334 | a channel contributes a 16-bit value, read only when both bytes lie before `bytesRead` |
| Pcm.MonoSample | src/main/java/com/example/pitchchanger/Controller/AudioController.java:327-336 | the mean of a frame's channel values over 32768 lies in [-1.0, 1.0) |
| Pcm.MonoBlock | src/main/java/com/example/pitchchanger/Controller/AudioController.java:323-336 | one mono sample per whole frame read, each the scaled mean of its frame |
| Pcm.EqualChannelsDownmix | src/main/java/com/example/pitchchanger/Controller/AudioController.java:327-337 | a value present on every channel comes out as that value over 32768 |
| Pcm.ChannelSumEqual | src/main/java/com/example/pitchchanger/Controller/AudioController.java:330-334 | when every channel holds the same value, the frame's sum is the channel count times it |
| Pcm.ConvertToMonoFloat | src/main/java/com/example/pitchchanger/Controller/AudioController.java:321-339 | exactly `bytesRead / frameSize` samples, each the scaled mean of its frame's guarded channel values; the array's contents are the mono block |
| Pcm.PcmFileWriter.constructor | src/main/java/com/example/pitchchanger/Controller/AudioController.java:211-219 | a writer starts with an empty buffer, nothing written and the input's sample rate |
| Pcm.PcmFileWriter.Process | src/main/java/com/example/pitchchanger/Controller/AudioController.java:222-238 | the buffer grows by the encoding of the block, two bytes per sample, and stays the encoding of every sample consumed; the chain continues |
| Pcm.PcmFileWriter.ProcessingFinished | src/main/java/com/example/pitchchanger/Controller/AudioController.java:241-266 | a non-empty buffer is written as mono 16-bit audio with one frame per consumed sample; an empty one writes nothing |
| PitchDetector.MinPeriod | src/main/java/com/example/pitchchanger/Controller/AudioController.java:342 | for a non-negative sample rate, the largest whole period whose 800 Hz span fits: `p * 800 <= sampleRate < (p + 1) * 800` |
| PitchDetector.MaxPeriod | src/main/java/com/example/pitchchanger/Controller/AudioController.java:343-347 | the truncated `sampleRate / 80` when it is below `len / 2`, exactly `len / 2 - 1` otherwise; never above either bound, and a non-empty range starts at 0 or above |
| PitchDetector.BestPeriod | src/main/java/com/example/pitchchanger/Controller/AudioController.java:341-366 | every read index is in bounds; 0 when no period correlates positively, else the first period in [minPeriod, maxPeriod) reaching the largest correlation |
| PitchDetector.LagCorrelation | src/main/java/com/example/pitchchanger/Controller/AudioController.java:353-360 | the loop's correlation for a period is the mean of the lagged products over the `len - period` overlapping samples |
| PitchDetector.FirstBestUnique | src/main/java/com/example/pitchchanger/Controller/AudioController.java:362-365 | the first best period of a range is unique |
| PitchDetector.DetectPitchAutocorrelation | src/main/java/com/example/pitchchanger/Controller/AudioController.java:341-369 | -1 when no period correlates positively, else the sample rate over the first best period (-1 for period 0); always -1 or above 80 Hz |
| PitchDetector.PitchOfPeriod | src/main/java/com/example/pitchchanger/Controller/AudioController.java:368 | a positive period gives the frequency whose product with the period is the sample rate; any other gives -1 |
| PitchDetector.PitchAboveSearchFloor | src/main/java/com/example/pitchchanger/Controller/AudioController.java:343-368 | a positive period below the upper bound stands for a frequency above 80 Hz |
| JavaInt.Wrap32 | src/main/java/com/example/pitchchanger/Controller/AudioController.java:414 | the result is an `int` congruent to the input mod 2^32, and the input itself when it is one |
| JavaInt.Abs32 | src/main/java/com/example/pitchchanger/Controller/AudioController.java:77 | the absolute value for every `int` but -2^31, which is returned unchanged |
| JavaInt.TruncToInt | src/main/java/com/example/pitchchanger/Controller/AudioController.java:342-343 | the cast rounds toward zero |
| JavaInt.TruncMonotone | src/main/java/com/example/pitchchanger/Controller/AudioController.java:342-343 | the truncating cast never reverses the order of two values |
| JavaInt.ParseInt32 | src/main/java/com/example/pitchchanger/Controller/AudioController.java:409 | on text made only of ASCII digits and '-', the only text the controller passes it: an optional leading '-' followed by digits, within `int`, parses to its value; any other such text fails. A leading '+' and non-ASCII digits are not modelled |
| Decimal.IntToString | src/main/resources/static/js/script.js:113 | the text is non-empty, starts with '-' exactly for a negative number, and otherwise holds only digits |
| Decimal.ParseOfIntToString | src/main/resources/static/js/script.js:113 | an integer written in decimal parses back to itself |
| Text.LastIndexOf | src/main/java/com/example/pitchchanger/Controller/AudioController.java:384 | the last position holding the character, or -1 when none does |
| Text.Contains | src/main/resources/static/js/script.js:88 | true exactly when the text occurs somewhere |
| Text.JsTrim | src/main/resources/static/js/script.js:116 | empty exactly when the input is all whitespace; otherwise a substring that neither starts nor ends with whitespace, and everything before and after it is whitespace |
| UploadForm.ClampSemitone | src/main/resources/static/js/script.js:11-15 | the value lies in [-12, 12]; NaN gives 0; an in-range value is kept; anything beyond a bound gives that bound |
| UploadForm.ClampIdempotent | src/main/resources/static/js/script.js:11-15 | clamping a clamped value changes nothing |
| UploadForm.SemitoneControls.OnSliderInput | src/main/resources/static/js/script.js:9 | the number box takes the slider's value |
| UploadForm.SemitoneControls.OnNumberInput | src/main/resources/static/js/script.js:10-17 | the number box and the slider both end with the clamped entry |
| UploadForm.SemitoneControls.Clear | src/main/resources/static/js/script.js:224-225 | both controls go back to 0 |
| UploadForm.AcceptedType | src/main/resources/static/js/script.js:88 | a file is accepted exactly when its type mentions "audio" or its name ends with ".mp3" in any mix of cases (`Mp3Suffix`); every other file is refused |
| UploadForm.BuildSubmission | src/main/resources/static/js/script.js:80-123 | each error exactly when its check is the first to fail: no file, neither audio type nor ".mp3" name, over 50 MiB, blank note in note mode; otherwise the file field and exactly one of "shift" (the slider in decimal) or "targetNote" (the trimmed note) |
| UploadForm.ShiftFieldReadsBack | src/main/resources/static/js/script.js:113 | the "shift" text the form sends is read back by the server's `int` parser as the slider value |
| UploadForm.StripExtension | src/main/resources/static/js/script.js:183 | the name is cut where `\.[^/.]+$` matches and kept whole when it does not |
| UploadForm.StripAppended | src/main/resources/static/js/script.js:183 | an extension with no '.' or '/' appended to any name is exactly what is stripped |
| UploadForm.FallbackFilename | src/main/resources/static/js/script.js:182-190 | the name starts with the stripped original name and ends with "_shift_<n>st.mp3" in shift mode or "_to_<note>.mp3" otherwise; ".mp3" is its own extension |
| UploadForm.FallbackAfterExtension | src/main/resources/static/js/script.js:183-189 | for a name with an extension, the download is the name before the extension followed by the mode's text |
| UploadForm.FallbackWithoutExtension | src/main/resources/static/js/script.js:183-189 | a name the extension pattern does not match is kept whole before the mode's text |
| UploadForm.FallbackForMp3 | src/main/resources/static/js/script.js:182-190 | "x.mp3" becomes "x_shift_<n>st.mp3" in shift mode and "x_to_<note>.mp3" in note mode |

## Left out

- The audio library stages: WSOLA time stretching, `RateTransposer`, `MultichannelToMono`
  and the dispatcher (AudioController.java:104-190). Their code is not part of this model.
- `centToFactor`, `hzToMidi` and `semitonesToFactor` are floating-point `pow` and `log`
  numerics. `hzToMidi` is a parameter of `AudioRequest.SemitoneSteps`. The others do not
  feed any modelled decision.
- Floating-point rounding in the correlation sums, the down-mix and the `sample * 32767`
  product. All of these are exact reals, and NaN and infinite samples are not modelled.
- I/O: the ffmpeg conversion and its timeout, temporary files and their clean-up, reading
  the WAV stream, the WAV container writer, and logging. `AudioRequest.DetectPitchFromWav`
  takes the bytes read and the stream's format as parameters. `Pcm.PcmFileWriter`
  records what it would hand to the WAV writer in its `written` field.
- AudioRequest.DetectPitchFromWav: the frame size is a `nat` and the channel count is
  positive. A stream format with an unspecified frame size (-1), which makes the
  controller's buffer allocation throw and return -1, is not modelled.
- The Spring endpoint, the request binding of `shift` to an `int`, the response headers
  and the Content-Disposition name the server sends.
- Everything in script.js that touches the browser: DOM updates, the mode radio buttons,
  the file display, `fetch`, the progress timer, object URLs and `alert`.
- The Content-Disposition parse (script.js:178-180). Only the fallback name is modelled.
- UploadForm.BuildSubmission: `slider` is the range input's value as a whole number. The
  browser's rounding of a fractional value assigned to the range input is not modelled.
- UploadForm.SemitoneControls.OnNumberInput: the slider is given the clamped entry as it
  is. The range input's rounding of that value to its step is not modelled, so
  `slider == ClampSemitone(entry)` holds as stated only for values the step allows.
- UploadForm.FallbackFilename: the slider and the note are parameters. The code reads
  them again when the response arrives.
- UploadForm.SemitoneControls.OnNumberInput: `entry` is the result of `Number(text)`.
  JavaScript's text-to-number conversion and negative zero are not modelled.
- Case mapping is ASCII only. No other character upper-cases to a string that forms a key of
  the pitch-class table, or lower-cases to a string that forms ".mp3", so the decisions do
  not change. Only the token text in an unknown-note error can differ from the JVM's
  Unicode `toUpperCase`.
- The slider value is written with `Decimal.IntToString`, plain decimal digits.
  JavaScript's exponent notation for magnitudes of 10^21 and above cannot occur for a
  slider value.

## Findings

| source | as written | input that shows it | evidently intended | confidence | as-written member | corrected member |
|---|---|---|---|---|---|---|
| src/main/java/com/example/pitchchanger/Controller/AudioController.java:77 | `Math.abs(semitoneSteps) > 24` on an `int`; `Math.abs(-2147483648)` is -2147483648, which is not above 24 | request parameter `shift=-2147483648` with no target note | every shift outside [-24, 24] is rejected before processing | not executed | AudioRequest.MinIntShiftPassesAsWritten | AudioRequest.SemitoneSteps |
| src/main/java/com/example/pitchchanger/Controller/AudioController.java:414 | `(octave + 1) * 12 + index` in `int` arithmetic wraps around | target note `C#357913945` (exact MIDI number 4294967353 wraps to 57) on a clip with no detected pitch, so the 220 Hz fallback (MIDI 57) gives a shift of 0 and the request is accepted | a note whose MIDI number does not fit is rejected as invalid | not executed | NoteMapper.WrappedOctave | NoteMapper.NoteToMidi |
