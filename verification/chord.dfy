/** Chords: twelve pitch classes with sharp and flat spellings, a chord as root +
    opaque suffix + optional slash bass, transposition modulo 12, rendering, and the
    parser driven by the pattern `^([A-G][#b]?)([^/]*?)(?:/([A-G][#b]?))?$`. */
module Chords {
  import opened Wrappers
  import opened Text

  predicate IsLetter(ch: char) {
    'A' <= ch <= 'G'
  }

  predicate IsAccidental(ch: char) {
    ch == '#' || ch == 'b'
  }

  /** Text the pattern's `[A-G][#b]?` group accepts. */
  predicate IsNoteToken(t: string) {
    (|t| == 1 || (|t| == 2 && IsAccidental(t[1]))) && IsLetter(t[0])
  }

  predicate NoSlash(s: string) {
    forall i :: 0 <= i < |s| ==> s[i] != '/'
  }

  /** The twelve pitch classes; `Cs` is C sharp / D flat, and so on. */
  datatype ChordRoot = C | Cs | D | Ds | E | F | Fs | G | Gs | A | As | B {

    /** Semitones above C. */
    function Value(): (v: int)
      ensures 0 <= v < 12
    {
      match this
      case C => 0  case Cs => 1  case D => 2  case Ds => 3
      case E => 4  case F => 5   case Fs => 6 case G => 7
      case Gs => 8 case A => 9   case As => 10 case B => 11
    }

    /** One of the five pitch classes between two natural notes. */
    predicate IsAccidentalRoot() {
      this == Cs || this == Ds || this == Fs || this == Gs || this == As
    }

    /** Spelling with a sharp: the enum name with `s` read as `#`. */
    function SharpName(): (s: string)
      ensures IsNoteToken(s)
      ensures |s| == 2 <==> IsAccidentalRoot()
      ensures |s| == 2 ==> s[1] == '#'
    {
      match this
      case C => "C"   case Cs => "C#" case D => "D"   case Ds => "D#"
      case E => "E"   case F => "F"   case Fs => "F#" case G => "G"
      case Gs => "G#" case A => "A"   case As => "A#" case B => "B"
    }

    /** Spelling with a flat: the five accidentals become Db, Eb, Gb, Ab, Bb;
        natural notes keep their letter. */
    function FlatName(): (s: string)
      ensures IsNoteToken(s)
      ensures |s| == 2 <==> IsAccidentalRoot()
      ensures |s| == 2 ==> s[1] == 'b'
      ensures !IsAccidentalRoot() ==> s == SharpName()
    {
      match this
      case C => "C"   case Cs => "Db" case D => "D"   case Ds => "Eb"
      case E => "E"   case F => "F"   case Fs => "Gb" case G => "G"
      case Gs => "Ab" case A => "A"   case As => "Bb" case B => "B"
    }

    /** The spelling `to_string` picks for the given preference. */
    function Name(preferSharp: bool): string {
      if preferSharp then SharpName() else FlatName()
    }
  }

  /** `ChordRoot(v)`: the pitch class with value `v`. */
  function RootOf(v: int): (r: ChordRoot)
    requires 0 <= v < 12
    ensures r.Value() == v
  {
    [C, Cs, D, Ds, E, F, Fs, G, Gs, A, As, B][v]
  }

  lemma ValueInjective(r1: ChordRoot, r2: ChordRoot)
    requires r1.Value() == r2.Value()
    ensures r1 == r2
  {
  }

  /** The table of spellings `ChordRoot.from_string` accepts, after upper-casing:
      one entry per line of the source's `note_map`. */
  function LookupNote(k: string): Option<ChordRoot> {
    if k == "C" then Some(C)
    else if k == "C#" || k == "DB" then Some(Cs)
    else if k == "D" then Some(D)
    else if k == "D#" || k == "EB" then Some(Ds)
    else if k == "E" then Some(E)
    else if k == "F" then Some(F)
    else if k == "F#" || k == "GB" then Some(Fs)
    else if k == "G" then Some(G)
    else if k == "G#" || k == "AB" then Some(Gs)
    else if k == "A" then Some(A)
    else if k == "A#" || k == "BB" then Some(As)
    else if k == "B" then Some(B)
    else None
  }

  /** `ChordRoot.from_string`: trim, upper-case, look the spelling up. */
  function NoteFromString(s: string): Option<ChordRoot> {
    LookupNote(Upper(Strip(s)))
  }

  /** Upper-casing a spelling only turns a flat's `b` into `B`. */
  lemma UpperNames(r: ChordRoot)
    ensures Upper(r.SharpName()) == r.SharpName()
    ensures Upper(r.FlatName()) == if r.IsAccidentalRoot() then [r.FlatName()[0], 'B'] else r.FlatName()
  {
    var n := r.SharpName();
    var f := r.FlatName();
    if |n| == 1 {
      assert Upper(n) == [UpperChar(n[0])] + Upper(n[1..]);
    } else {
      assert Upper(n) == [UpperChar(n[0])] + ([UpperChar(n[1])] + Upper(n[2..]));
      assert Upper(f) == [UpperChar(f[0])] + ([UpperChar(f[1])] + Upper(f[2..]));
    }
  }

  /** The table holds exactly the upper-cased sharp and flat name of each pitch
      class: 12 sharp names and 5 further flat ones. */
  lemma LookupNoteSpec(k: string, r: ChordRoot)
    ensures LookupNote(k) == Some(r) <==> k == Upper(r.SharpName()) || k == Upper(r.FlatName())
  {
    UpperNames(r);
  }

  /** The note parser accepts exactly the sharp and the flat name of each pitch
      class, in any letter case and with surrounding whitespace; 17 spellings in
      all, so `Cb`, `E#`, `Fb` and `B#` are refused. */
  lemma NoteFromStringSpec(s: string, r: ChordRoot)
    ensures NoteFromString(s) == Some(r) <==>
      Upper(Strip(s)) == Upper(r.SharpName()) || Upper(Strip(s)) == Upper(r.FlatName())
  {
    LookupNoteSpec(Upper(Strip(s)), r);
  }

  /** A note token has no whitespace to trim. */
  lemma StripNoteToken(t: string)
    requires IsNoteToken(t)
    ensures Strip(t) == t
  {
    assert !IsSpace(t[0]) && !IsSpace(t[|t| - 1]);
  }

  /** Every rendering of a pitch class parses back to it. */
  lemma NoteFromNames(r: ChordRoot)
    ensures NoteFromString(r.SharpName()) == Some(r)
    ensures NoteFromString(r.FlatName()) == Some(r)
  {
    StripNoteToken(r.SharpName());
    StripNoteToken(r.FlatName());
    LookupNoteSpec(Upper(r.SharpName()), r);
    LookupNoteSpec(Upper(r.FlatName()), r);
  }

  /** A chord: root, opaque quality suffix ("m7", "maj7", "sus4", ...), optional bass. */
  datatype Chord = Chord(root: ChordRoot, suffix: string, bass: Option<ChordRoot>)

  /** Moves a pitch class up by `n` semitones (down when negative), modulo 12. */
  function Shift(r: ChordRoot, n: int): (s: ChordRoot)
    ensures s.Value() == (r.Value() + n) % 12
  {
    RootOf((r.Value() + n) % 12)
  }

  /** `Chord.transpose`: root and bass move by `n` semitones, the suffix is kept. */
  function Transpose(c: Chord, n: int): (t: Chord)
    ensures t.root.Value() == (c.root.Value() + n) % 12
    ensures t.suffix == c.suffix
    ensures t.bass.Some? <==> c.bass.Some?
    ensures c.bass.Some? ==> t.bass.value.Value() == (c.bass.value.Value() + n) % 12
  {
    Chord(Shift(c.root, n), c.suffix, if c.bass.Some? then Some(Shift(c.bass.value, n)) else None)
  }

  lemma ShiftCompose(r: ChordRoot, a: int, b: int)
    ensures Shift(Shift(r, a), b) == Shift(r, a + b)
  {
    var x := r.Value();
    assert ((x + a) % 12 + b) % 12 == (x + a + b) % 12 by {
      var q := (x + a) / 12;
      assert x + a == 12 * q + (x + a) % 12;
      assert (x + a) % 12 + b == (x + a + b) - 12 * q;
    }
    ValueInjective(Shift(Shift(r, a), b), Shift(r, a + b));
  }

  lemma TransposeThenTranspose(c: Chord, a: int, b: int)
    ensures Transpose(Transpose(c, a), b) == Transpose(c, a + b)
  {
    ShiftCompose(c.root, a, b);
    if c.bass.Some? {
      ShiftCompose(c.bass.value, a, b);
    }
  }

  lemma TransposeZero(c: Chord)
    ensures Transpose(c, 0) == c
  {
    ValueInjective(Shift(c.root, 0), c.root);
    if c.bass.Some? {
      ValueInjective(Shift(c.bass.value, 0), c.bass.value);
    }
  }

  /** Transposing by `a` and then by `b` is transposing by `a + b`; in particular
      `n` then `-n` changes nothing. */
  lemma TransposeCompose(c: Chord, a: int, b: int)
    ensures Transpose(Transpose(c, a), b) == Transpose(c, a + b)
    ensures Transpose(c, 0) == c
    ensures Transpose(Transpose(c, a), -a) == c
  {
    TransposeThenTranspose(c, a, b);
    TransposeThenTranspose(c, a, -a);
    TransposeZero(c);
  }

  /** A transposition by whole octaves, up or down, changes nothing. */
  lemma TransposeOctaves(c: Chord, k: int)
    ensures Transpose(c, 12 * k) == c
  {
    assert (c.root.Value() + 12 * k) % 12 == c.root.Value();
    ValueInjective(Shift(c.root, 12 * k), c.root);
    if c.bass.Some? {
      assert (c.bass.value.Value() + 12 * k) % 12 == c.bass.value.Value();
      ValueInjective(Shift(c.bass.value, 12 * k), c.bass.value);
    }
  }
  /** `Chord.to_string`: root name, suffix, then `/` and the bass name when there
      is a bass; both names follow the same sharp/flat preference. */
  function ToString(c: Chord, preferSharp: bool): string {
    c.root.Name(preferSharp) + c.suffix + SlashPart(if c.bass.Some? then Some(c.bass.value.Name(preferSharp)) else None)
  }

  /** The `/bass` tail of a chord's text. */
  function SlashPart(bassText: Option<string>): string {
    if bassText.Some? then "/" + bassText.value else ""
  }

  /** Position of the first `/` in `s`, or `|s|` when there is none. */
  function FirstSlash(s: string): (k: nat)
    ensures k <= |s|
    ensures NoSlash(s[..k])
    ensures k < |s| ==> s[k] == '/'
  {
    if |s| == 0 || s[0] == '/' then 0
    else
      var k := 1 + FirstSlash(s[1..]);
      assert forall i :: 1 <= i < k ==> s[i] == s[1..][i - 1];
      k
  }

  /** The three groups of a match of the chord pattern. */
  datatype Groups = Groups(rootText: string, suffix: string, bassText: Option<string>)

  /** The groups Python's `re.match` reports for the chord pattern on the trimmed
      text `t`: root text, suffix (lazy, so it stops at the first `/`) and the
      optional bass text. The accidental is taken greedily, so a one-letter root
      is never followed by `#` or `b` in the suffix. */
  ghost predicate PatternMatch(t: string, g: Groups) {
    && IsNoteToken(g.rootText)
    && NoSlash(g.suffix)
    && (g.bassText.Some? ==> IsNoteToken(g.bassText.value))
    && (|g.rootText| == 1 && |g.suffix| > 0 ==> !IsAccidental(g.suffix[0]))
    && t == g.rootText + g.suffix + SlashPart(g.bassText)
  }

  /** The pattern `^([A-G][#b]?)([^/]*?)(?:/([A-G][#b]?))?$` matched by hand.
      The accidental is tried first; falling back to a one-letter root cannot
      rescue a failed match, because the text after the first `/` alone decides
      it. */
  function MatchChordPattern(t: string): (r: Option<Groups>)
    ensures r.Some? ==> PatternMatch(t, r.value)
  {
    if |t| == 0 || !IsLetter(t[0]) then None
    else
      var n := if |t| >= 2 && IsAccidental(t[1]) then 2 else 1;
      var rest := t[n..];
      assert IsNoteToken(t[..n]);
      var k := FirstSlash(rest);
      if k == |rest| then
        MatchedWithoutBass(t, n);
        Some(Groups(t[..n], rest, None))
      else if IsNoteToken(rest[k + 1..]) then
        MatchedWithBass(t, n, k);
        Some(Groups(t[..n], rest[..k], Some(rest[k + 1..])))
      else None
  }

  /** A root followed by slash-free text is a match without a bass. */
  lemma MatchedWithoutBass(t: string, n: nat)
    requires 1 <= n <= |t| && IsNoteToken(t[..n])
    requires n == 1 && |t| > 1 ==> !IsAccidental(t[1])
    requires FirstSlash(t[n..]) == |t[n..]|
    ensures PatternMatch(t, Groups(t[..n], t[n..], None))
  {
    var rest := t[n..];
    assert rest[..|rest|] == rest;
    assert n == 1 && |rest| > 0 ==> rest[0] == t[1];
    assert t == t[..n] + rest + SlashPart(None);
  }

  /** A root, slash-free text, `/` and a note token is a match with a bass. */
  lemma MatchedWithBass(t: string, n: nat, k: nat)
    requires 1 <= n <= |t| && IsNoteToken(t[..n])
    requires n == 1 && |t| > 1 ==> !IsAccidental(t[1])
    requires k == FirstSlash(t[n..]) && k < |t[n..]|
    requires IsNoteToken(t[n..][k + 1..])
    ensures PatternMatch(t, Groups(t[..n], t[n..][..k], Some(t[n..][k + 1..])))
  {
    var rest := t[n..];
    assert n == 1 && k > 0 ==> rest[0] == t[1];
    assert rest == rest[..k] + "/" + rest[k + 1..];
    assert t == t[..n] + rest[..k] + SlashPart(Some(rest[k + 1..]));
  }

  /** What `from_string` builds from the groups: both spellings must name a pitch
      class (which rules out Cb, Fb, E#, B#). */
  function Decode(g: Groups): (r: Option<Chord>)
    ensures r.Some? <==>
      NoteFromString(g.rootText).Some? && (g.bassText.Some? ==> NoteFromString(g.bassText.value).Some?)
    ensures r.Some? ==> r.value.root == NoteFromString(g.rootText).value
    ensures r.Some? ==> r.value.suffix == g.suffix && (r.value.bass.Some? <==> g.bassText.Some?)
    ensures r.Some? && g.bassText.Some? ==> r.value.bass == NoteFromString(g.bassText.value)
  {
    match NoteFromString(g.rootText)
    case None => None
    case Some(root) =>
      if g.bassText.None? then Some(Chord(root, g.suffix, None))
      else
        match NoteFromString(g.bassText.value)
        case None => None
        case Some(bass) => Some(Chord(root, g.suffix, Some(bass)))
  }

  /** The spellings the pattern lets through that name no pitch class. */
  predicate IsUnmapped(t: string) {
    t == "Cb" || t == "Fb" || t == "E#" || t == "B#"
  }

  /** The pattern lets `Cb`, `Fb`, `E#` and `B#` through, but no pitch class is
      spelled that way, so a chord with such a root or bass is refused. */
  lemma DecodeRefusesUnmapped(g: Groups)
    requires IsUnmapped(g.rootText) || (g.bassText.Some? && IsUnmapped(g.bassText.value))
    ensures Decode(g) == None
  {
    if IsUnmapped(g.rootText) {
      UnmappedNames(g.rootText);
    } else {
      UnmappedNames(g.bassText.value);
    }
  }

  lemma UnmappedNames(t: string)
    requires IsUnmapped(t)
    ensures NoteFromString(t) == None
  {
    if t == "Cb" {
      UnmappedSpelling('C', 'b', "CB");
    } else if t == "Fb" {
      UnmappedSpelling('F', 'b', "FB");
    } else if t == "E#" {
      UnmappedSpelling('E', '#', "E#");
    } else {
      UnmappedSpelling('B', '#', "B#");
    }
  }

  /** A two-character spelling whose upper-cased form is not in the table names no note. */
  lemma UnmappedSpelling(x: char, y: char, u: string)
    requires !IsSpace(x) && !IsSpace(y)
    requires u == [UpperChar(x), UpperChar(y)] && LookupNote(u) == None
    ensures NoteFromString([x, y]) == None
  {
    var s := [x, y];
    assert s[|s| - 1] == y;
    assert Strip(s) == s;
    assert Upper(s[2..]) == [];
    assert Upper(s) == [UpperChar(s[0])] + ([UpperChar(s[1])] + Upper(s[2..]));
  }

  /** `Chord.from_string`: trim, match the pattern, decode the groups. */
  function ParseChord(s: string): Option<Chord> {
    match MatchChordPattern(Strip(s))
    case None => None
    case Some(g) => Decode(g)
  }

  lemma FirstSlashOf(a: string, b: string)
    requires NoSlash(a)
    requires |b| == 0 || b[0] == '/'
    ensures FirstSlash(a + b) == |a|
  {
    if |a| > 0 {
      assert (a + b)[1..] == a[1..] + b;
      FirstSlashOf(a[1..], b);
    } else {
      assert a + b == b;
    }
  }

  /** Where a fit of the pattern puts the end of the root: the matcher's greedy
      choice of one or two characters is the root group's length. */
  lemma RootOfMatch(t: string, g: Groups)
    requires PatternMatch(t, g)
    ensures |t| >= 1
    ensures (if |t| >= 2 && IsAccidental(t[1]) then 2 else 1) == |g.rootText|
    ensures t[..|g.rootText|] == g.rootText
    ensures t[|g.rootText|..] == g.suffix + SlashPart(g.bassText)
  {
    var tail := SlashPart(g.bassText);
    assert t == g.rootText + (g.suffix + tail);
    if |g.rootText| == 1 && |t| >= 2 {
      assert t[1] == (g.suffix + tail)[0];
      if |g.suffix| == 0 {
        assert tail[0] == '/';
      }
    }
  }

  /** The hand-written matcher finds every match of the pattern: whenever the
      groups `g` fit `t`, the matcher reports exactly `g`. Together with its
      postcondition this makes it agree with the pattern on every input. */
  lemma MatchChordPatternComplete(t: string, g: Groups)
    requires PatternMatch(t, g)
    ensures MatchChordPattern(t) == Some(g)
  {
    RootOfMatch(t, g);
    var n := |g.rootText|;
    var rest := t[n..];
    var tail := SlashPart(g.bassText);
    FirstSlashOf(g.suffix, tail);
    var k := FirstSlash(rest);
    assert k == |g.suffix|;
    assert rest[..k] == g.suffix;
    if g.bassText.Some? {
      assert rest[k + 1..] == g.bassText.value;
    } else {
      assert rest == g.suffix;
    }
  }

  /** The parser reads a chord exactly when the trimmed text fits the pattern
      with groups that decode to it; since the fit is unique, that chord is the
      only reading. */
  lemma ParseChordMeaning(s: string, c: Chord)
    ensures ParseChord(s) == Some(c) <==> exists g :: PatternMatch(Strip(s), g) && Decode(g) == Some(c)
  {
    if exists g :: PatternMatch(Strip(s), g) && Decode(g) == Some(c) {
      var g :| PatternMatch(Strip(s), g) && Decode(g) == Some(c);
      MatchChordPatternComplete(Strip(s), g);
    }
    if ParseChord(s) == Some(c) {
      var g := MatchChordPattern(Strip(s)).value;
      assert PatternMatch(Strip(s), g) && Decode(g) == Some(c);
    }
  }

  /** A chord whose suffix holds no `/`, does not start with an accidental (which
      would be read as part of the root) and, with no bass, does not end in
      whitespace (which trimming would drop). */
  predicate WellFormed(c: Chord) {
    && NoSlash(c.suffix)
    && (|c.suffix| > 0 ==> !IsAccidental(c.suffix[0]))
    && (c.bass.None? && |c.suffix| > 0 ==> !IsSpace(c.suffix[|c.suffix| - 1]))
  }

  /** Parse after render: rendering a well-formed chord with either spelling and
      parsing the text gives the chord back. */
  lemma RenderThenParse(c: Chord, preferSharp: bool)
    requires WellFormed(c)
    ensures ParseChord(ToString(c, preferSharp)) == Some(c)
  {
    var g := Groups(c.root.Name(preferSharp), c.suffix,
                    if c.bass.Some? then Some(c.bass.value.Name(preferSharp)) else None);
    var t := ToString(c, preferSharp);
    assert t == g.rootText + c.suffix + SlashPart(g.bassText);
    assert !IsSpace(t[0]) by { assert t[0] == g.rootText[0]; }
    assert !IsSpace(t[|t| - 1]) by {
      if g.bassText.Some? {
        assert t[|t| - 1] == g.bassText.value[|g.bassText.value| - 1];
      } else if |c.suffix| > 0 {
        assert t[|t| - 1] == c.suffix[|c.suffix| - 1];
      } else {
        assert t == g.rootText;
      }
    }
    assert Strip(t) == t;
    MatchChordPatternComplete(t, g);
    DecodeNames(c, preferSharp);
  }

  lemma DecodeNames(c: Chord, preferSharp: bool)
    ensures Decode(Groups(c.root.Name(preferSharp), c.suffix,
                          if c.bass.Some? then Some(c.bass.value.Name(preferSharp)) else None)) == Some(c)
  {
    NoteFromNames(c.root);
    if c.bass.Some? {
      NoteFromNames(c.bass.value);
    }
  }

  /** A parsed chord's suffix holds no `/` and, without a bass, does not end in
      whitespace; it is a piece of the input, so a whitespace-free input gives a
      whitespace-free suffix. The parsed chord is therefore well-formed exactly
      when its suffix does not start with `#` or `b`, which a two-letter root
      allows (`C#bm` parses as C sharp with suffix `bm`). */
  lemma ParsedIsWellFormed(s: string, c: Chord)
    requires ParseChord(s) == Some(c)
    ensures NoSlash(c.suffix)
    ensures c.bass.None? && |c.suffix| > 0 ==> !IsSpace(c.suffix[|c.suffix| - 1])
    ensures NoSpace(s) ==> NoSpace(c.suffix)
    ensures WellFormed(c) <==> |c.suffix| == 0 || !IsAccidental(c.suffix[0])
  {
    var t := Strip(s);
    var g := MatchChordPattern(t).value;
    assert Decode(g) == Some(c);
    DecodedShape(t, g, c);
    if NoSpace(s) && |s| > 0 {
      assert t == s;
    }
  }

  /** The shape facts of a chord decoded from a match of the trimmed text `t`. */
  lemma DecodedShape(t: string, g: Groups, c: Chord)
    requires PatternMatch(t, g) && Decode(g) == Some(c)
    requires !IsSpace(t[|t| - 1])
    ensures NoSlash(c.suffix)
    ensures c.bass.None? && |c.suffix| > 0 ==> !IsSpace(c.suffix[|c.suffix| - 1])
    ensures NoSpace(t) ==> NoSpace(c.suffix)
    ensures WellFormed(c) <==> |c.suffix| == 0 || !IsAccidental(c.suffix[0])
  {
    GroupsShape(t, g);
  }

  /** The suffix group of a match has no `/`, is a piece of the matched text,
      and ends the text when there is no bass. */
  lemma GroupsShape(t: string, g: Groups)
    requires PatternMatch(t, g)
    ensures NoSlash(g.suffix)
    ensures g.bassText.None? && |g.suffix| > 0 ==> t[|t| - 1] == g.suffix[|g.suffix| - 1]
    ensures NoSpace(t) ==> NoSpace(g.suffix)
  {
    assert t == g.rootText + g.suffix + SlashPart(g.bassText);
    assert forall i :: 0 <= i < |g.suffix| ==> g.suffix[i] == t[|g.rootText| + i];
  }

  /** Rendering never produces whitespace when the suffix has none. */
  lemma RenderedHasNoSpace(c: Chord, preferSharp: bool)
    requires NoSpace(c.suffix)
    ensures |ToString(c, preferSharp)| > 0
    ensures NoSpace(ToString(c, preferSharp))
  {
    var t := ToString(c, preferSharp);
    var rootText := c.root.Name(preferSharp);
    var tail := SlashPart(if c.bass.Some? then Some(c.bass.value.Name(preferSharp)) else None);
    assert t == rootText + c.suffix + tail;
    forall i | 0 <= i < |t|
      ensures !IsSpace(t[i])
    {
      if i < |rootText| {
        assert t[i] == rootText[i];
      } else if i < |rootText| + |c.suffix| {
        assert t[i] == c.suffix[i - |rootText|];
      } else {
        assert t[i] == tail[i - |rootText| - |c.suffix|];
      }
    }
  }
}
