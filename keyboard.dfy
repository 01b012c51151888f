/** Note naming: MIDI note numbers to key labels such as "C4", and the
    48-key on-screen keyboard that starts at note 36 (src/midi.ts:42-50).

    `getMidiKey` takes any JavaScript number; the model takes any integer and
    follows JavaScript's arithmetic on the integers a double holds exactly
    (below 2^53; octaves printed without exponent, below 10^21): `%` truncates toward zero (so a negative
    note that is not a multiple of 12 indexes the name table at a negative
    position and prints "undefined"), and `Math.floor(note / 12)` is Dafny's
    `/` because the divisor is positive. */
module Keyboard {

  datatype Option<T> = None | Some(value: T)

  /** Pitch-class names, indexed by the note number modulo 12. */
  const PitchNames: seq<string> :=
    ["C", "C♯", "D", "D♯", "E", "F", "F♯", "G", "G♯", "A", "A♯", "B"]

  /** What a template literal prints for an array element that does not exist. */
  const Undefined: string := "undefined"

  /** The first note of the on-screen keyboard (C2) and its number of keys. */
  const KeyboardFirstNote: int := 36
  const KeyboardSize: nat := 12 * 4

  /** Each name is one letter, optionally followed by the sharp sign. */
  predicate WellFormedName(name: string)
  {
    (|name| == 1 || (|name| == 2 && name[1] == '♯')) && 'A' <= name[0] <= 'G'
  }

  lemma PitchNamesWellFormed()
    ensures |PitchNames| == 12
    ensures forall p :: 0 <= p < 12 ==> WellFormedName(PitchNames[p])
  {
  }

  lemma PitchNamesDistinct()
    ensures forall p, q :: 0 <= p < q < 12 ==> PitchNames[p] != PitchNames[q]
  {
    forall p, q | 0 <= p < q < 12 ensures PitchNames[p] != PitchNames[q] {
      if |PitchNames[p]| == |PitchNames[q]| {
        assert PitchNames[p][0] != PitchNames[q][0];
      }
    }
  }

  /** `note % 12` as JavaScript computes it, the index into the name table:
      truncating division, so the remainder carries the sign of the note. */
  function PitchIndex(note: int): (p: int)
    ensures -12 < p < 12
    ensures (note - p) % 12 == 0
    ensures p != 0 ==> (p < 0 <==> note < 0)
    ensures p >= 0 <==> note >= 0 || note % 12 == 0
  {
    if note >= 0 then note % 12 else -((-note) % 12)
  }

  /** `Math.floor(note / 12) - 1`: octave -1 starts at note 0, so C4 is note 60. */
  function Octave(note: int): (o: int)
    ensures 12 * (o + 1) <= note < 12 * (o + 2)
    ensures 0 <= note <= 127 ==> -1 <= o <= 9
  {
    note / 12 - 1
  }

  /** `names[pitch]` as the template literal prints it. */
  function PitchName(note: int): (name: string)
    ensures name == Undefined <==> note < 0 && note % 12 != 0
    ensures name != Undefined ==> name == PitchNames[note % 12] && WellFormedName(name)
  {
    PitchNamesWellFormed();
    var p := PitchIndex(note);
    if p >= 0 then PitchNames[p] else Undefined
  }

  function DigitChar(d: nat): (c: char)
    requires d < 10
    ensures '0' <= c <= '9'
  {
    ('0' as int + d) as char
  }

  predicate AllDigits(s: string)
  {
    forall i :: 0 <= i < |s| ==> '0' <= s[i] <= '9'
  }

  /** Decimal digits of a non-negative integer, as JavaScript prints it. */
  function Digits(n: nat): (s: string)
    ensures |s| > 0 && AllDigits(s)
    ensures |s| > 1 ==> s[0] != '0'
  {
    if n < 10 then [DigitChar(n)] else Digits(n / 10) + [DigitChar(n % 10)]
  }

  /** An integer interpolated into a template literal (in JavaScript, one of
      magnitude below 10^21, which prints without an exponent). */
  function Decimal(n: int): (s: string)
    ensures |s| > 0
    ensures s[0] == '-' <==> n < 0
    ensures s[0] != '♯'
  {
    if n < 0 then "-" + Digits(-n) else Digits(n)
  }

  /** `getMidiKey`: the pitch-class name followed by the octave number. */
  function GetMidiKey(note: int): (key: string)
    ensures 0 <= note <= 127 ==> 2 <= |key| <= 4 && 'A' <= key[0] <= 'G'
  {
    PitchName(note) + Decimal(Octave(note))
  }

  /** `createKeyboard`: the labels of the 48 keys from note 36 upward. */
  function CreateKeyboard(): (keys: seq<string>)
    ensures |keys| == KeyboardSize
    ensures forall i :: 0 <= i < |keys| ==> keys[i] == GetMidiKey(KeyboardFirstNote + i)
  {
    seq(KeyboardSize, i => GetMidiKey(KeyboardFirstNote + i))
  }

  // ---------------------------------------------------------------------
  // Reading a label back: the independent definition that GetMidiKey is
  // proved against.
  // ---------------------------------------------------------------------

  function DigitValue(c: char): (d: nat)
    requires '0' <= c <= '9'
    ensures d < 10 && DigitChar(d) == c
    ensures forall e :: 0 <= e < 10 && DigitChar(e) == c ==> e == d
  {
    (c as int) - ('0' as int)
  }

  /** The number a string of decimal digits denotes. */
  function DigitsValue(s: string): nat
    requires AllDigits(s)
  {
    if s == [] then 0 else 10 * DigitsValue(s[..|s| - 1]) + DigitValue(s[|s| - 1])
  }

  /** A non-empty string of decimal digits. */
  function ParseDigits(s: string): Option<nat>
  {
    if |s| > 0 && AllDigits(s) then Some(DigitsValue(s)) else None
  }

  /** An optionally negative decimal integer. */
  function ParseDecimal(s: string): Option<int>
  {
    if |s| > 0 && s[0] == '-' then
      match ParseDigits(s[1..])
      case None => None
      case Some(v) => Some(-(v as int))
    else
      match ParseDigits(s)
      case None => None
      case Some(v) => Some(v as int)
  }

  /** The first position of `name` in `names`. */
  function FindName(names: seq<string>, name: string): (r: Option<nat>)
    ensures r.Some? ==> r.value < |names| && names[r.value] == name
    ensures r.Some? ==> forall j :: 0 <= j < r.value ==> names[j] != name
    ensures r.None? ==> name !in names
  {
    if names == [] then None
    else if names[0] == name then Some(0)
    else match FindName(names[1..], name)
      case None => None
      case Some(i) => Some(i + 1)
  }

  /** A label read against a table of pitch names: the name (one letter, and
      the sharp sign if the second character is one), then the octave. */
  function ParseKey(names: seq<string>, key: string): Option<int>
  {
    var nameLength := if |key| >= 2 && key[1] == '♯' then 2 else 1;
    if |key| < nameLength then None
    else match FindName(names, key[..nameLength])
      case None => None
      case Some(p) =>
        match ParseDecimal(key[nameLength..])
        case None => None
        case Some(octave) => Some(12 * (octave + 1) + p)
  }

  /** The note a label such as "C♯4" or "A-1" names, if it names one. */
  function ParseMidiKey(key: string): Option<int>
  {
    ParseKey(PitchNames, key)
  }

  lemma {:induction false} DigitsRoundTrip(n: nat)
    ensures DigitsValue(Digits(n)) == n
  {
    var s := Digits(n);
    if n < 10 {
      assert s == [DigitChar(n)];
      assert DigitValue(s[0]) == n;
    } else {
      var prefix := Digits(n / 10);
      assert s == prefix + [DigitChar(n % 10)];
      assert s[..|s| - 1] == prefix;
      assert DigitValue(s[|s| - 1]) == n % 10;
      DigitsRoundTrip(n / 10);
    }
  }

  lemma DigitsParse(n: nat)
    ensures ParseDigits(Digits(n)) == Some(n)
  {
    DigitsRoundTrip(n);
  }

  lemma DecimalRoundTrip(n: int)
    ensures ParseDecimal(Decimal(n)) == Some(n)
  {
    var s := Decimal(n);
    if n < 0 {
      var digits := Digits(-n);
      assert s == "-" + digits;
      assert s[1..] == digits;
      DigitsParse(-n);
    } else {
      assert s == Digits(n);
      assert s[0] != '-';
      DigitsParse(n);
    }
  }

  lemma FindPitchName(p: int)
    requires 0 <= p < 12
    ensures FindName(PitchNames, PitchNames[p]) == Some(p)
  {
    PitchNamesDistinct();
    var r := FindName(PitchNames, PitchNames[p]);
    assert PitchNames[p] in PitchNames;
    assert r.Some? && PitchNames[r.value] == PitchNames[p];
  }

  /** A label splits into its pitch name and the rest at the sharp sign. */
  lemma ParseKeyParts(names: seq<string>, name: string, suffix: string, p: nat, octave: int)
    requires WellFormedName(name) && |suffix| > 0 && suffix[0] != '♯'
    requires FindName(names, name) == Some(p) && ParseDecimal(suffix) == Some(octave)
    ensures ParseKey(names, name + suffix) == Some(12 * (octave + 1) + p)
  {
    var key := name + suffix;
    var nameLength := if |key| >= 2 && key[1] == '♯' then 2 else 1;
    assert nameLength == |name| by {
      if |name| == 1 { assert key[1] == suffix[0]; }
    }
    assert key[..nameLength] == name && key[nameLength..] == suffix;
  }

  /** A pitch name followed by an octave number reads back as its note. */
  lemma ParseNameAndOctave(p: nat, octave: int)
    requires p < 12
    ensures ParseMidiKey(PitchNames[p] + Decimal(octave)) == Some(12 * (octave + 1) + p)
  {
    var name, suffix := PitchNames[p], Decimal(octave);
    assert WellFormedName(name) by { PitchNamesWellFormed(); }
    assert FindName(PitchNames, name) == Some(p) by { FindPitchName(p); }
    assert ParseDecimal(suffix) == Some(octave) by { DecimalRoundTrip(octave); }
    ParseKeyParts(PitchNames, name, suffix, p, octave);
  }

  /** A label is the name at the note's (non-negative) pitch index followed
      by its octave. */
  lemma KeyParts(note: int)
    requires note >= 0 || note % 12 == 0
    ensures GetMidiKey(note) == PitchNames[note % 12] + Decimal(Octave(note))
  {
  }

  lemma NoteFromParts(note: int)
    ensures 12 * (Octave(note) + 1) + note % 12 == note
  {
  }

  /** Every label that names a pitch class reads back as its own note. */
  lemma KeyRoundTrip(note: int)
    requires note >= 0 || note % 12 == 0
    ensures ParseMidiKey(GetMidiKey(note)) == Some(note)
  {
    var p: nat := note % 12;
    var octave := Octave(note);
    var key := GetMidiKey(note);
    assert key == PitchNames[p] + Decimal(octave) by { KeyParts(note); }
    assert note == 12 * (octave + 1) + p by { NoteFromParts(note); }
    ParsedFromParts(key, note, p, octave);
  }

  lemma ParsedFromParts(key: string, note: int, p: nat, octave: int)
    requires p < 12 && key == PitchNames[p] + Decimal(octave) && note == 12 * (octave + 1) + p
    ensures ParseMidiKey(key) == Some(note)
  {
    ParseNameAndOctave(p, octave);
  }

  /** Hence labels of distinct notes differ. */
  lemma KeysDistinct(m: int, n: int)
    requires m >= 0 && n >= 0 && m != n
    ensures GetMidiKey(m) != GetMidiKey(n)
  {
    KeyRoundTrip(m);
    KeyRoundTrip(n);
  }

  /** A negative note off the C positions prints an "undefined" pitch name. */
  lemma NegativeNoteUndefined(note: int)
    requires note < 0 && note % 12 != 0
    ensures GetMidiKey(note)[..|Undefined|] == Undefined
    ensures ParseMidiKey(GetMidiKey(note)) == None
  {
    var key := GetMidiKey(note);
    assert key[..|Undefined|] == Undefined;
    assert key[1] == 'n';
    assert FindName(PitchNames, key[..1]) == None by {
      PitchNamesWellFormed();
    }
  }

  /** The reference points of the MIDI note numbering. */
  lemma KnownKeys()
    ensures GetMidiKey(36) == "C2"
    ensures GetMidiKey(60) == "C4"
    ensures GetMidiKey(69) == "A4"
  {
  }

  /** The labels of the lowest and highest MIDI notes. */
  lemma MidiRangeKeys()
    ensures GetMidiKey(0) == "C-1"
    ensures GetMidiKey(127) == "G9"
  {
  }

  /** Each key of the keyboard is labelled with its own note, so the 48 labels
      are pairwise distinct. */
  lemma KeyboardLabels()
    ensures forall i :: 0 <= i < KeyboardSize ==>
      ParseMidiKey(CreateKeyboard()[i]) == Some(KeyboardFirstNote + i)
    ensures forall i, j :: 0 <= i < j < KeyboardSize ==> CreateKeyboard()[i] != CreateKeyboard()[j]
  {
    var keys := CreateKeyboard();
    forall i | 0 <= i < KeyboardSize
      ensures ParseMidiKey(keys[i]) == Some(KeyboardFirstNote + i)
    {
      KeyRoundTrip(KeyboardFirstNote + i);
    }
    forall i, j | 0 <= i < j < KeyboardSize ensures keys[i] != keys[j] {
      KeysDistinct(KeyboardFirstNote + i, KeyboardFirstNote + j);
    }
  }

  /** The keyboard runs from C2 to B5. */
  lemma KeyboardEnds()
    ensures CreateKeyboard()[0] == "C2" && CreateKeyboard()[KeyboardSize - 1] == "B5"
  {
    KnownKeys();
    assert GetMidiKey(83) == "B5";
  }
}
