/** Note names to MIDI note numbers (A4 = 69, C-1 = 0), as the controller's note parser
    computes them: the pitch-class token is what remains after removing every digit and
    '-', the octave is the digits and '-' kept in their order. */
module NoteMapper {
  import opened Outcomes
  import opened Decimal
  import opened JavaInt
  import opened Text

  /** The seventeen upper-case tokens the parser accepts and their pitch-class index (C = 0). */
  const PitchClasses: map<string, int> := map[
    "C" := 0, "C#" := 1, "DB" := 1, "D" := 2, "D#" := 3, "EB" := 3, "E" := 4, "F" := 5,
    "F#" := 6, "GB" := 6, "G" := 7, "G#" := 8, "AB" := 8, "A" := 9, "A#" := 10, "BB" := 10,
    "B" := 11]

  /** The sharp spelling of each pitch class, used to write a MIDI number back as a note. */
  const SharpNames: seq<string> := ["C", "C#", "D", "D#", "E", "F", "F#", "G", "G#", "A", "A#", "B"]

  datatype NoteError =
    | MissingOctave                   // the note holds no digit and no '-'
    | MalformedOctave                 // its digits and '-' are not an `int` literal
    | UnknownPitchClass(name: string) // the remaining token is not in the table
    | MidiOutOfRange(exact: int)      // the MIDI number does not fit in an `int`

  predicate IsOctaveChar(c: char) { IsDigit(c) || c == '-' }

  predicate AllOctaveChars(s: string) { forall i :: 0 <= i < |s| ==> IsOctaveChar(s[i]) }

  predicate NoOctaveChars(s: string) { forall i :: 0 <= i < |s| ==> !IsOctaveChar(s[i]) }

  /** The note with every character other than a digit or '-' removed. */
  function OctaveText(note: string): (t: string)
    ensures AllOctaveChars(t)
  {
    if note == [] then []
    else (if IsOctaveChar(note[0]) then [note[0]] else []) + OctaveText(note[1..])
  }

  /** The note with every digit and '-' removed. */
  function NameText(note: string): (t: string)
    ensures NoOctaveChars(t)
  {
    if note == [] then []
    else (if IsOctaveChar(note[0]) then [] else [note[0]]) + NameText(note[1..])
  }

  /** The pitch-class token looked up in the table. */
  function PitchClassToken(note: string): string
  {
    AsciiUpper(NameText(note))
  }

  /** The parser exactly as the controller's `int` arithmetic evaluates it: an octave
      whose MIDI number does not fit in 32 bits wraps around. */
  function NoteToMidiAsWritten(note: string): (r: Result<int, NoteError>)
    ensures r == Err(MissingOctave) <==> OctaveText(note) == []
    ensures r.Ok? ==> IsInt32(r.value) && PitchClassToken(note) in PitchClasses
    ensures r.Err? && r.error.UnknownPitchClass? ==> PitchClassToken(note) !in PitchClasses
    ensures !r.Err? || !r.error.MidiOutOfRange?
  {
    var token := PitchClassToken(note);
    var octaveText := OctaveText(note);
    if octaveText == [] then Err(MissingOctave)
    else match ParseInt32(octaveText)
      case None => Err(MalformedOctave)
      case Some(octave) =>
        if token !in PitchClasses then Err(UnknownPitchClass(token))
        else Ok(Wrap32((octave + 1) * 12 + PitchClasses[token]))
  }

  /** The parser with the MIDI number computed exactly; an octave whose MIDI number does
      not fit in an `int` is rejected instead of wrapping. */
  function NoteToMidi(note: string): (r: Result<int, NoteError>)
    ensures r == Err(MissingOctave) <==> OctaveText(note) == []
    ensures r.Ok? ==> IsInt32(r.value) && PitchClassToken(note) in PitchClasses
    ensures r.Err? && r.error.UnknownPitchClass? ==> PitchClassToken(note) !in PitchClasses
  {
    var token := PitchClassToken(note);
    var octaveText := OctaveText(note);
    if octaveText == [] then Err(MissingOctave)
    else match ParseInt32(octaveText)
      case None => Err(MalformedOctave)
      case Some(octave) =>
        if token !in PitchClasses then Err(UnknownPitchClass(token))
        else
          var midi := (octave + 1) * 12 + PitchClasses[token];
          if IsInt32(midi) then Ok(midi) else Err(MidiOutOfRange(midi))
  }

  lemma TableRange()
    ensures forall t :: t in PitchClasses ==> 0 <= PitchClasses[t] < 12
  {
  }

  /** A parsed MIDI number reads back as its parts: `m % 12` is the table index of the
      token and `m / 12 - 1` is the octave. */
  lemma MidiReadsBack(note: string)
    requires NoteToMidi(note).Ok?
    ensures NoteToMidi(note).value % 12 == PitchClasses[PitchClassToken(note)]
    ensures ParseInt32(OctaveText(note)) == Some(NoteToMidi(note).value / 12 - 1)
  {
    TableRange();
    var index := PitchClasses[PitchClassToken(note)];
    var octave := ParseInt32(OctaveText(note)).value;
    var m := NoteToMidi(note).value;
    assert m == (octave + 1) * 12 + index;
    assert m / 12 == octave + 1 && m % 12 == index;
  }

  /** A MIDI number written as a note: sharp spelling and signed decimal octave. */
  function FormatNote(midi: int): string
  {
    SharpNames[midi % 12] + IntToString(midi / 12 - 1)
  }

  lemma {:induction false} OctaveTextAppend(a: string, b: string)
    ensures OctaveText(a + b) == OctaveText(a) + OctaveText(b)
    ensures NameText(a + b) == NameText(a) + NameText(b)
    decreases |a|
  {
    if a != [] {
      assert (a + b)[1..] == a[1..] + b;
      OctaveTextAppend(a[1..], b);
    } else {
      assert a + b == b;
    }
  }

  lemma {:induction false} OctaveTextOfOctave(s: string)
    requires AllOctaveChars(s)
    ensures OctaveText(s) == s && NameText(s) == []
    decreases |s|
  {
    if s != [] {
      OctaveTextOfOctave(s[1..]);
      assert s == [s[0]] + s[1..];
    }
  }

  lemma {:induction false} OctaveTextOfName(s: string)
    requires NoOctaveChars(s)
    ensures OctaveText(s) == [] && NameText(s) == s
    decreases |s|
  {
    if s != [] {
      OctaveTextOfName(s[1..]);
      assert s == [s[0]] + s[1..];
    }
  }

  /** A note written as a token without digits or '-' followed by octave text splits back
      into exactly those two parts. */
  lemma NoteParts(name: string, octave: string)
    requires NoOctaveChars(name) && AllOctaveChars(octave)
    ensures OctaveText(name + octave) == octave
    ensures NameText(name + octave) == name
  {
    OctaveTextAppend(name, octave);
    OctaveTextOfName(name);
    OctaveTextOfOctave(octave);
  }

  /** Upper-casing a non-empty string maps its first character and the rest separately. */
  lemma UpperCons(s: string)
    requires s != []
    ensures AsciiUpper(s) == [AsciiUpperChar(s[0])] + AsciiUpper(s[1..])
  {
  }

  lemma UpperAppend(a: string, b: string)
    ensures AsciiUpper(a + b) == AsciiUpper(a) + AsciiUpper(b)
  {
  }

  lemma {:induction false} UpperKeepsOctave(s: string)
    ensures OctaveText(AsciiUpper(s)) == OctaveText(s)
    decreases |s|
  {
    if s != [] {
      var u := AsciiUpper(s);
      UpperCons(s);
      assert u[0] == AsciiUpperChar(s[0]) && u[1..] == AsciiUpper(s[1..]);
      UpperKeepsOctave(s[1..]);
    }
  }

  lemma {:induction false} UpperKeepsName(s: string)
    ensures NameText(AsciiUpper(s)) == AsciiUpper(NameText(s))
    decreases |s|
  {
    if s != [] {
      var u := AsciiUpper(s);
      var c := AsciiUpperChar(s[0]);
      UpperCons(s);
      assert u[0] == c && u[1..] == AsciiUpper(s[1..]);
      UpperKeepsName(s[1..]);
      var head := if IsOctaveChar(s[0]) then [] else [s[0]];
      UpperAppend(head, NameText(s[1..]));
      assert AsciiUpper(head) == (if IsOctaveChar(c) then [] else [c]);
    }
  }

  /** Upper-casing ASCII letters never turns a character into a digit or '-', nor one of
      those into something else, so it commutes with both filters. */
  lemma UpperCommutes(s: string)
    ensures OctaveText(AsciiUpper(s)) == OctaveText(s)
    ensures NameText(AsciiUpper(s)) == AsciiUpper(NameText(s))
  {
    UpperKeepsOctave(s);
    UpperKeepsName(s);
  }

  lemma SameParts(s: string, t: string)
    requires AsciiUpper(s) == AsciiUpper(t)
    ensures OctaveText(s) == OctaveText(t) && PitchClassToken(s) == PitchClassToken(t)
  {
    UpperCommutes(s);
    UpperCommutes(t);
    assert AsciiUpper(AsciiUpper(s)) == AsciiUpper(s);
    assert AsciiUpper(AsciiUpper(t)) == AsciiUpper(t);
  }

  /** The parser ignores the case of ASCII letters: notes that agree once upper-cased
      ("a#3", "A#3") give the same MIDI number or the same error. */
  lemma CaseInsensitive(s: string, t: string)
    requires AsciiUpper(s) == AsciiUpper(t)
    ensures NoteToMidi(s) == NoteToMidi(t)
    ensures NoteToMidiAsWritten(s) == NoteToMidiAsWritten(t)
  {
    SameParts(s, t);
  }

  /** Enharmonic spellings of a pitch class, in either case, give the same MIDI number
      for every octave text. */
  lemma Enharmonic(a: string, b: string, octave: string)
    requires NoOctaveChars(a) && NoOctaveChars(b) && AllOctaveChars(octave)
    requires AsciiUpper(a) in PitchClasses && AsciiUpper(b) in PitchClasses
    requires PitchClasses[AsciiUpper(a)] == PitchClasses[AsciiUpper(b)]
    ensures NoteToMidi(a + octave) == NoteToMidi(b + octave)
  {
    NoteParts(a, octave);
    NoteParts(b, octave);
    if octave != [] && ParseInt32(octave).Some? {
      var oct := ParseInt32(octave).value;
      var index := PitchClasses[AsciiUpper(a)];
      if IsInt32((oct + 1) * 12 + index) {
        KnownNote(a + octave, AsciiUpper(a), octave, oct, index);
        KnownNote(b + octave, AsciiUpper(b), octave, oct, index);
      } else {
        OverflowingNote(a + octave, AsciiUpper(a), octave, oct, index);
        OverflowingNote(b + octave, AsciiUpper(b), octave, oct, index);
      }
    }
  }

  lemma TableSpellings()
    ensures forall a :: a in PitchClasses ==> NoOctaveChars(a) && AsciiUpper(a) == a
  {
  }

  /** Any two spellings the table gives the same pitch class (C# and DB, D# and EB, F# and
      GB, G# and AB, A# and BB) give the same MIDI number for every octave text. */
  lemma EnharmonicSpellings(octave: string)
    requires AllOctaveChars(octave)
    ensures forall a, b ::
              a in PitchClasses && b in PitchClasses && PitchClasses[a] == PitchClasses[b] ==>
              NoteToMidi(a + octave) == NoteToMidi(b + octave)
  {
    TableSpellings();
    forall a, b | a in PitchClasses && b in PitchClasses && PitchClasses[a] == PitchClasses[b]
      ensures NoteToMidi(a + octave) == NoteToMidi(b + octave)
    {
      Enharmonic(a, b, octave);
    }
  }

  lemma SplitNote(note: string, name: string, octave: string)
    requires note == name + octave && NoOctaveChars(name) && AllOctaveChars(octave)
    ensures OctaveText(note) == octave && PitchClassToken(note) == AsciiUpper(name)
  {
    NoteParts(name, octave);
  }

  lemma KnownNote(note: string, token: string, octave: string, oct: int, index: int)
    requires OctaveText(note) == octave && PitchClassToken(note) == token
    requires ParseInt32(octave) == Some(oct)
    requires token in PitchClasses && PitchClasses[token] == index
    requires IsInt32((oct + 1) * 12 + index)
    ensures NoteToMidi(note) == Ok((oct + 1) * 12 + index)
  {
    assert ParseDecimal(octave) == Some(oct);
    assert octave != [];
    var midi := (oct + 1) * 12 + index;
    assert NoteToMidi(note) == (if IsInt32(midi) then Ok(midi) else Err(MidiOutOfRange(midi)));
  }

  lemma UnknownNote(note: string, token: string, octave: string)
    requires OctaveText(note) == octave && PitchClassToken(note) == token
    requires octave != [] && ParseInt32(octave).Some? && token !in PitchClasses
    ensures NoteToMidi(note) == Err(UnknownPitchClass(token))
  {
  }

  lemma FourParses()
    ensures ParseInt32("4") == Some(4)
  {
    assert DigitsValue("4") == 4 by { assert "4"[..0] == []; }
  }

  lemma MinusOneParses()
    ensures ParseInt32("-1") == Some(-1)
  {
    assert "-1"[1..] == "1";
    assert DigitsValue("1") == 1 by { assert "1"[..0] == []; }
  }

  lemma A4Parts()
    ensures OctaveText("A4") == "4" && PitchClassToken("A4") == "A"
  {
    SplitNote("A4", "A", "4");
    assert AsciiUpper("A") == "A";
  }

  lemma CMinusOneParts()
    ensures OctaveText("C-1") == "-1" && PitchClassToken("C-1") == "C"
  {
    SplitNote("C-1", "C", "-1");
    assert AsciiUpper("C") == "C";
  }

  lemma ReferenceIndices()
    ensures "A" in PitchClasses && PitchClasses["A"] == 9
    ensures "C" in PitchClasses && PitchClasses["C"] == 0
  {
  }

  lemma ReferenceA4()
    ensures NoteToMidi("A4") == Ok(69)
  {
    FourParses();
    A4Parts();
    ReferenceIndices();
    KnownNote("A4", "A", "4", 4, 9);
  }

  lemma ReferenceCMinusOne()
    ensures NoteToMidi("C-1") == Ok(0)
  {
    MinusOneParses();
    CMinusOneParts();
    ReferenceIndices();
    KnownNote("C-1", "C", "-1", -1, 0);
  }

  /** The MIDI reference points: A4 is 69 and C-1 is 0. */
  lemma ReferenceNotes()
    ensures NoteToMidi("A4") == Ok(69)
    ensures NoteToMidi("C-1") == Ok(0)
  {
    ReferenceA4();
    ReferenceCMinusOne();
  }

  lemma OutsideTable()
    ensures "H" !in PitchClasses && "E#" !in PitchClasses && "CB" !in PitchClasses
  {
  }

  /** A token outside the table is refused whatever octave follows it. */
  lemma UnknownWithOctave(name: string, octave: string)
    requires NoOctaveChars(name) && AsciiUpper(name) !in PitchClasses
    requires AllOctaveChars(octave) && octave != [] && ParseInt32(octave).Some?
    ensures NoteToMidi(name + octave) == Err(UnknownPitchClass(AsciiUpper(name)))
  {
    SplitNote(name + octave, name, octave);
    UnknownNote(name + octave, AsciiUpper(name), octave);
  }

  /** Tokens outside the table are refused with every valid octave, including the
      spellings E# and Cb that music notation allows but the table does not list. */
  lemma UnknownTokens(octave: string)
    requires AllOctaveChars(octave) && octave != [] && ParseInt32(octave).Some?
    ensures NoteToMidi("H" + octave) == Err(UnknownPitchClass("H"))
    ensures NoteToMidi("e#" + octave) == Err(UnknownPitchClass("E#"))
    ensures NoteToMidi("Cb" + octave) == Err(UnknownPitchClass("CB"))
  {
    OutsideTable();
    assert AsciiUpper("H") == "H" && AsciiUpper("e#") == "E#" && AsciiUpper("Cb") == "CB";
    UnknownWithOctave("H", octave);
    UnknownWithOctave("e#", octave);
    UnknownWithOctave("Cb", octave);
  }

  lemma SharpNameFacts(k: int)
    requires 0 <= k < 12
    ensures NoOctaveChars(SharpNames[k]) && AsciiUpper(SharpNames[k]) == SharpNames[k]
    ensures SharpNames[k] in PitchClasses && PitchClasses[SharpNames[k]] == k
  {
  }

  /** Writing a MIDI number as a note and parsing it again gives the number back. */
  lemma FormatNoteRoundTrip(midi: int)
    requires IsInt32(midi)
    ensures NoteToMidi(FormatNote(midi)) == Ok(midi)
  {
    var index := midi % 12;
    var name := SharpNames[index];
    var o := midi / 12 - 1;
    var text := IntToString(o);
    assert OctaveText(FormatNote(midi)) == text && PitchClassToken(FormatNote(midi)) == name
        && name in PitchClasses && PitchClasses[name] == index by {
      SharpNameFacts(index);
      NoteParts(name, text);
    }
    assert ParseInt32(text) == Some(o) by {
      ParseOfIntToString(o);
    }
    assert (o + 1) * 12 + index == midi;
    KnownNote(FormatNote(midi), name, text, o, index);
  }

  /** Where the exact parser succeeds the controller's arithmetic agrees with it; where the
      exact MIDI number is too large for an `int`, the controller returns it wrapped. */
  lemma AsWrittenAgrees(note: string)
    ensures NoteToMidi(note).Ok? ==> NoteToMidiAsWritten(note) == NoteToMidi(note)
    ensures NoteToMidi(note).Err? && NoteToMidi(note).error.MidiOutOfRange? ==>
              NoteToMidiAsWritten(note) == Ok(Wrap32(NoteToMidi(note).error.exact))
    ensures NoteToMidi(note).Err? && !NoteToMidi(note).error.MidiOutOfRange? ==>
              NoteToMidiAsWritten(note) == NoteToMidi(note)
  {
    var token := PitchClassToken(note);
    var octaveText := OctaveText(note);
    if octaveText != [] && ParseInt32(octaveText).Some? && token in PitchClasses {
      var midi := (ParseInt32(octaveText).value + 1) * 12 + PitchClasses[token];
      assert NoteToMidiAsWritten(note) == Ok(Wrap32(midi));
      if IsInt32(midi) {
        assert NoteToMidi(note) == Ok(midi);
      } else {
        assert NoteToMidi(note) == Err(MidiOutOfRange(midi));
      }
    }
  }

  lemma FiveDigitPrefix()
    ensures DigitsValue("35791") == 35791
  {
    assert DigitsValue("3") == 3 by { assert "3"[..0] == []; }
    assert DigitsValue("35") == 35 by { assert "35"[..1] == "3"; }
    assert DigitsValue("357") == 357 by { assert "357"[..2] == "35"; }
    assert DigitsValue("3579") == 3579 by { assert "3579"[..3] == "357"; }
    assert "35791"[..4] == "3579";
  }

  lemma NineDigitValue()
    ensures DigitsValue("357913945") == 357913945
  {
    FiveDigitPrefix();
    assert DigitsValue("357913") == 357913 by { assert "357913"[..5] == "35791"; }
    assert DigitsValue("3579139") == 3579139 by { assert "3579139"[..6] == "357913"; }
    assert DigitsValue("35791394") == 35791394 by { assert "35791394"[..7] == "3579139"; }
    assert "357913945"[..8] == "35791394";
  }

  lemma NineDigitOctave()
    ensures ParseInt32("357913945") == Some(357913945)
  {
    NineDigitValue();
    assert AllDigits("357913945");
    assert ParseDecimal("357913945") == Some(357913945);
  }

  lemma WrappedOctaveParts()
    ensures OctaveText("C#357913945") == "357913945" && PitchClassToken("C#357913945") == "C#"
  {
    NineDigitOctaveParts("357913945");
    assert "C#357913945" == "C#" + "357913945";
  }

  lemma NineDigitOctaveParts(octave: string)
    requires octave == "357913945"
    ensures OctaveText("C#" + octave) == octave && PitchClassToken("C#" + octave) == "C#"
  {
    assert AllOctaveChars(octave);
    assert NoOctaveChars("C#") && AsciiUpper("C#") == "C#";
    NoteParts("C#", octave);
  }

  lemma OverflowingNote(note: string, token: string, octave: string, oct: int, index: int)
    requires OctaveText(note) == octave && PitchClassToken(note) == token
    requires ParseInt32(octave) == Some(oct)
    requires token in PitchClasses && PitchClasses[token] == index
    requires !IsInt32((oct + 1) * 12 + index)
    ensures NoteToMidi(note) == Err(MidiOutOfRange((oct + 1) * 12 + index))
    ensures NoteToMidiAsWritten(note) == Ok(Wrap32((oct + 1) * 12 + index))
  {
  }

  lemma CSharpIndex()
    ensures "C#" in PitchClasses && PitchClasses["C#"] == 1
  {
  }

  lemma WrapOfExact()
    ensures Wrap32(4294967353) == 57
  {
  }

  /** An octave large enough for the MIDI number to leave the `int` range: the
      controller's arithmetic wraps "C#357913945" around to 57 (A3), where the exact
      number is 4294967353. */
  lemma WrappedOctave()
    ensures NoteToMidiAsWritten("C#357913945") == Ok(57)
    ensures NoteToMidi("C#357913945") == Err(MidiOutOfRange(4294967353))
  {
    WrappedOctaveParts();
    NineDigitOctave();
    CSharpIndex();
    WrapOfExact();
    OverflowingNote("C#357913945", "C#", "357913945", 357913945, 1);
  }
}
