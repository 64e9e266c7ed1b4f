/** String-level transposition helpers built on the chord model:
    `transpose_chord`, `transpose_key` and `semitones_between_keys`. */
module TransposeUtil {
  import opened Wrappers
  import opened Text
  import opened Chords

  /** `transpose_chord`: parse, transpose by `n` semitones, render with the
      requested spelling; `None` exactly when the text does not parse. For a
      well-formed chord the result parses back to the transposed chord. */
  function TransposeChord(s: string, n: int, preferSharp: bool): (r: Option<string>)
    ensures r.None? <==> ParseChord(s).None?
    ensures r.Some? && WellFormed(ParseChord(s).value) ==>
      ParseChord(r.value) == Some(Transpose(ParseChord(s).value, n))
  {
    match ParseChord(s)
    case None => None
    case Some(c) =>
      var t := Transpose(c, n);
      assert WellFormed(c) ==> ParseChord(ToString(t, preferSharp)) == Some(t) by {
        if WellFormed(c) {
          RenderThenParse(t, preferSharp);
        }
      }
      Some(ToString(t, preferSharp))
  }

  /** `transpose_key`: a key such as "Am" is transposed exactly like a chord, so
      its mode (the suffix) is kept and only the tonic moves. */
  function TransposeKey(key: string, n: int, preferSharp: bool): (r: Option<string>)
    ensures r.None? <==> ParseChord(key).None?
    ensures r.Some? && WellFormed(ParseChord(key).value) ==>
      && ParseChord(r.value).Some?
      && ParseChord(r.value).value.suffix == ParseChord(key).value.suffix
      && ParseChord(r.value).value.root == Shift(ParseChord(key).value.root, n)
  {
    TransposeChord(key, n, preferSharp)
  }

  /** Transposing twice by `a` and then `b` is transposing once by `a + b`;
      so `n` followed by `-n` gives what transposing by 0 gives (the text
      re-rendered in the chosen spelling). Needs a well-formed chord. */
  lemma TransposeChordCompose(s: string, a: int, b: int, preferSharp: bool)
    requires ParseChord(s).Some? && WellFormed(ParseChord(s).value)
    ensures TransposeChord(TransposeChord(s, a, preferSharp).value, b, preferSharp)
         == TransposeChord(s, a + b, preferSharp)
    ensures TransposeChord(TransposeChord(s, a, preferSharp).value, -a, preferSharp)
         == TransposeChord(s, 0, preferSharp)
  {
    var c := ParseChord(s).value;
    TransposeCompose(c, a, b);
    TransposeCompose(c, a, -a);
  }

  /** Well-formedness is needed for the round trips: a suffix starting with `b`
      merges into the root when the root is a natural note. D with suffix "bm"
      (what "C#bm" becomes a semitone up) renders "Dbm", which reads back as
      D flat minor. */
  lemma RenderThenParseNeedsWellFormed()
    ensures !WellFormed(Chord(D, "bm", None))
    ensures ParseChord(ToString(Chord(D, "bm", None), true)) == Some(Chord(Cs, "m", None))
  {
    assert ToString(Chord(D, "bm", None), true) == ToString(Chord(Cs, "m", None), false);
    RenderThenParse(Chord(Cs, "m", None), false);
  }

  /** The signed interval from pitch class `f` up or down to `t`, whichever is
      shorter (up on a tritone from below, down from above): a difference of
      values already within -6..6, tritones included, is kept as it is. */
  function Interval(f: ChordRoot, t: ChordRoot): (d: int)
    ensures -6 <= d <= 6
    ensures -6 <= t.Value() - f.Value() <= 6 ==> d == t.Value() - f.Value()
    ensures (d - (t.Value() - f.Value())) % 12 == 0
    ensures Shift(f, d) == t
  {
    var diff := t.Value() - f.Value();
    var d := if diff > 6 then diff - 12 else if diff < -6 then diff + 12 else diff;
    assert (f.Value() + d) % 12 == t.Value();
    ValueInjective(Shift(f, d), t);
    d
  }

  /** `semitones_between_keys`: the interval between the roots of two keys,
      normalised to -6..6; `None` when either key does not parse. */
  function SemitonesBetweenKeys(fromKey: string, toKey: string): (r: Option<int>)
    ensures r.Some? <==> ParseChord(fromKey).Some? && ParseChord(toKey).Some?
    ensures r.Some? ==> r.value == Interval(ParseChord(fromKey).value.root, ParseChord(toKey).value.root)
  {
    var f := ParseChord(fromKey);
    var t := ParseChord(toKey);
    if f.None? || t.None? then None else Some(Interval(f.value.root, t.value.root))
  }

  /** The interval is antisymmetric: from `t` back to `f` is minus from `f` to `t`,
      the tritone included (6 one way, -6 the other). */
  lemma IntervalAntisymmetric(f: ChordRoot, t: ChordRoot)
    ensures Interval(t, f) == -Interval(f, t)
  {
  }

  /** A worked value: `s` spells `c` with sharps or with flats, `c` transposes
      to `t`, and `t` is spelled `expected`. */
  lemma TransposeChordValue(s: string, c: Chord, n: int, preferSharp: bool, t: Chord, expected: string)
    requires WellFormed(c) && (s == ToString(c, true) || s == ToString(c, false))
    requires Transpose(c, n) == t && ToString(t, preferSharp) == expected
    ensures TransposeChord(s, n, preferSharp) == Some(expected)
  {
    if s == ToString(c, true) {
      RenderThenParse(c, true);
    } else {
      RenderThenParse(c, false);
    }
  }

  /** C up 2 semitones is D. */
  lemma TransposeExampleUp()
    ensures TransposeChord("C", 2, true) == Some("D")
  {
    TransposeChordValue("C", Chord(C, "", None), 2, true, Chord(D, "", None), "D");
  }

  /** G down 2 semitones is F. */
  lemma TransposeExampleG()
    ensures TransposeChord("G", -2, true) == Some("F")
  {
    TransposeChordValue("G", Chord(G, "", None), -2, true, Chord(F, "", None), "F");
  }

  /** Am up 3 semitones is Cm: the suffix rides along. */
  lemma TransposeExampleMinor()
    ensures TransposeChord("Am", 3, true) == Some("Cm")
  {
    TransposeChordValue("Am", Chord(A, "m", None), 3, true, Chord(C, "m", None), "Cm");
  }

  /** Em7 down 5 semitones is Bm7: the root wraps below C. */
  lemma TransposeExampleDown()
    ensures TransposeChord("Em7", -5, true) == Some("Bm7")
  {
    TransposeChordValue("Em7", Chord(E, "m7", None), -5, true, Chord(B, "m7", None), "Bm7");
  }

  /** C up 1 is spelled C# when sharps are preferred... */
  lemma TransposeExampleSharp()
    ensures TransposeChord("C", 1, true) == Some("C#")
  {
    TransposeChordValue("C", Chord(C, "", None), 1, true, Chord(Cs, "", None), "C#");
  }

  /** ...and Db when flats are. */
  lemma TransposeExampleFlat()
    ensures TransposeChord("C", 1, false) == Some("Db")
  {
    TransposeChordValue("C", Chord(C, "", None), 1, false, Chord(Cs, "", None), "Db");
  }

  /** C/G up 2 is D/A: the bass moves with the root. */
  lemma TransposeExampleSlash()
    ensures TransposeChord("C/G", 2, true) == Some("D/A")
  {
    TransposeChordValue("C/G", Chord(C, "", Some(G)), 2, true, Chord(D, "", Some(A)), "D/A");
  }

  /** Flat-spelled input is read too: Db7/Ab up 2 is D#7/A# with sharps. */
  lemma TransposeExampleFlatInput()
    ensures TransposeChord("Db7/Ab", 2, true) == Some("D#7/A#")
  {
    TransposeChordValue("Db7/Ab", Chord(Cs, "7", Some(Gs)), 2, true, Chord(Ds, "7", Some(As)), "D#7/A#");
  }

  /** Text whose first non-blank character is not a note letter A..G has no
      transposition (so "H7" and "Invalid" are refused). */
  lemma TransposeRejectsNonLetter(s: string, n: int, preferSharp: bool)
    requires |s| > 0 && !IsSpace(s[0]) && !IsLetter(s[0])
    ensures TransposeChord(s, n, preferSharp) == None
  {
    var t := Strip(s);
    assert |t| > 0 ==> t[0] == s[0] by {
      assert LStrip(s) == s;
    }
  }

  /** The key of A minor up 5 semitones is D minor. */
  lemma TransposeKeyExample()
    ensures TransposeKey("Am", 5, true) == Some("Dm")
  {
    TransposeChordValue("Am", Chord(A, "m", None), 5, true, Chord(D, "m", None), "Dm");
  }

  /** A worked value: keys spelled as the sharp renderings of `f` and `t` are
      `d` semitones apart. */
  lemma SemitonesValue(fromKey: string, toKey: string, f: Chord, t: Chord, d: int)
    requires WellFormed(f) && fromKey == ToString(f, true)
    requires WellFormed(t) && toKey == ToString(t, true)
    requires Interval(f.root, t.root) == d
    ensures SemitonesBetweenKeys(fromKey, toKey) == Some(d)
  {
    RenderThenParse(f, true);
    RenderThenParse(t, true);
  }

  /** C to G is -5 semitones: down a fourth rather than up a fifth. */
  lemma SemitonesExample()
    ensures SemitonesBetweenKeys("C", "G") == Some(-5)
  {
    SemitonesValue("C", "G", Chord(C, "", None), Chord(G, "", None), -5);
  }

  /** C to D is 2 semitones, and a key to itself is 0. */
  lemma SemitonesExampleSmall()
    ensures SemitonesBetweenKeys("C", "D") == Some(2)
    ensures SemitonesBetweenKeys("C", "C") == Some(0)
  {
    SemitonesValue("C", "D", Chord(C, "", None), Chord(D, "", None), 2);
    SemitonesValue("C", "C", Chord(C, "", None), Chord(C, "", None), 0);
  }
}
