/** A loaded song: its sections of timed lyric entries, runtime transposition of
    the chord text (transpose and capo add up), BPM and key overrides, and the
    lookups of the section and entry sounding at a given time. */
module Songs {
  import opened Wrappers
  import opened Text
  import opened Json
  import opened Chords
  import TransposeUtil

  /** One timed lyric fragment, with the chord text shown above it, if any. */
  datatype Entry = Entry(word: string, startTime: real, endTime: real, chords: Option<string>)

  /** A named span of the song (verse, chorus, ...) holding its entries in order. */
  datatype Section = Section(name: string, order: int, startTime: real, endTime: real, entries: seq<Entry>)

  /** An entry as the time lookup returns it: tagged with its section's name. */
  datatype TaggedEntry = TaggedEntry(entry: Entry, section: string)

  /** The parts of a song file `Song` reads; either may be absent. */
  datatype SongFile = SongFile(meta: Option<JsonObject>, sections: Option<seq<Section>>)

  /** A song as loaded: the file's meta and original sections, the effective
      transpose, BPM and key, and the sections with transposed chord text. */
  datatype Song = Song(
    meta: JsonObject,
    originalSections: seq<Section>,
    preferNotation: string,
    transpose: int,
    bpm: Json,
    key: Json,
    sections: seq<Section>)

  /** Sharp spellings are used exactly when the notation setting is "sharp". */
  predicate PreferSharp(notation: string) {
    notation == "sharp"
  }

  /** One whitespace-free token of a chord string: transposed and re-rendered
      when it parses as a chord, kept verbatim otherwise. */
  function TransposeToken(token: string, n: int, preferSharp: bool): (r: string)
    ensures NoSpace(token) && |token| > 0 ==> NoSpace(r) && |r| > 0
    ensures ParseChord(token).None? ==> r == token
    ensures ParseChord(token).Some? && WellFormed(ParseChord(token).value) ==>
      ParseChord(r) == Some(Transpose(ParseChord(token).value, n))
  {
    match ParseChord(token)
    case None => token
    case Some(c) =>
      var t := Transpose(c, n);
      assert NoSpace(token) ==> NoSpace(ToString(t, preferSharp)) && |ToString(t, preferSharp)| > 0 by {
        ParsedIsWellFormed(token, c);
        if NoSpace(token) {
          RenderedHasNoSpace(t, preferSharp);
        }
      }
      assert WellFormed(c) ==> ParseChord(ToString(t, preferSharp)) == Some(t) by {
        if WellFormed(c) {
          RenderThenParse(t, preferSharp);
        }
      }
      ToString(t, preferSharp)
  }

  /** A token that parses is transposed exactly as the transposition utility
      transposes a chord symbol, in the same spelling; a token that does not
      parse is one the utility refuses. */
  lemma TransposeTokenIsUtility(token: string, n: int, preferSharp: bool)
    ensures ParseChord(token).Some? ==>
      Some(TransposeToken(token, n, preferSharp)) == TransposeUtil.TransposeChord(token, n, preferSharp)
    ensures ParseChord(token).None? ==> TransposeUtil.TransposeChord(token, n, preferSharp).None?
  {
  }

  /** Either spelling of a well-formed chord, as a token, becomes the transposed
      chord rendered in the preferred spelling: sharps when `preferSharp`,
      flats otherwise. */
  lemma TransposeTokenValue(token: string, c: Chord, n: int, preferSharp: bool, expected: string)
    requires WellFormed(c) && (token == ToString(c, true) || token == ToString(c, false))
    requires ToString(Transpose(c, n), preferSharp) == expected
    ensures TransposeToken(token, n, preferSharp) == expected
  {
    if token == ToString(c, true) {
      RenderThenParse(c, true);
    } else {
      RenderThenParse(c, false);
    }
  }

  /** With flats preferred, C up a semitone is shown as Db... */
  lemma TransposeTokenExampleFlat()
    ensures TransposeToken("C", 1, false) == "Db"
  {
    TransposeTokenValue("C", Chord(C, "", None), 1, false, "Db");
  }

  /** ...and G up a semitone as Ab. */
  lemma TransposeTokenExampleFlatG()
    ensures TransposeToken("G", 1, false) == "Ab"
  {
    TransposeTokenValue("G", Chord(G, "", None), 1, false, "Ab");
  }

  function TransposeTokens(tokens: seq<string>, n: int, preferSharp: bool): (r: seq<string>)
    ensures AreWords(tokens) ==> AreWords(r)
    ensures |r| == |tokens|
    ensures forall i :: 0 <= i < |r| ==> r[i] == TransposeToken(tokens[i], n, preferSharp)
  {
    seq(|tokens|, i requires 0 <= i < |tokens| => TransposeToken(tokens[i], n, preferSharp))
  }

  /** `Song._transpose_chord_string`: `None` and "" give `None`; otherwise the
      text is split on whitespace, each token transposed or kept, and the tokens
      joined with single spaces. The result splits back into exactly as many
      tokens as the input had, each the input token transposed or verbatim, and
      it is in single-space form: joining its own tokens gives it back. */
  function TransposeChordString(chords: Option<string>, n: int, preferSharp: bool): (r: Option<string>)
    ensures r.None? <==> chords.None? || chords.value == ""
    ensures r.Some? ==> Split(r.value) == TransposeTokens(Split(chords.value), n, preferSharp)
    ensures r.Some? ==> r.value == JoinSpace(Split(r.value))
  {
    if chords.None? || chords.value == "" then None
    else
      SplitYieldsWords(chords.value);
      var out := TransposeTokens(Split(chords.value), n, preferSharp);
      SplitJoinSpace(out);
      Some(JoinSpace(out))
  }

  /** The chord tokens that survive being rendered and read back: tokens that do
      not parse, and tokens whose chord suffix does not start with `#` or `b`. */
  predicate TokenRoundTrips(token: string) {
    ParseChord(token).Some? ==> WellFormed(ParseChord(token).value)
  }

  lemma TransposeTokenCompose(token: string, a: int, b: int, preferSharp: bool)
    requires TokenRoundTrips(token)
    ensures TransposeToken(TransposeToken(token, a, preferSharp), b, preferSharp)
         == TransposeToken(token, a + b, preferSharp)
    ensures TokenRoundTrips(TransposeToken(token, a, preferSharp))
  {
    match ParseChord(token)
    case None =>
    case Some(c) =>
      RenderThenParse(Transpose(c, a), preferSharp);
      TransposeCompose(c, a, b);
  }

  lemma JoinSpaceNonEmpty(tokens: seq<string>)
    requires AreWords(tokens) && |tokens| > 0
    ensures |JoinSpace(tokens)| > 0
  {
  }

  /** Transposing chord text by `a` and the result by `b` equals transposing the
      original by `a + b`, provided the text has at least one token and all its
      tokens round-trip. */
  lemma {:induction false} TransposeChordStringCompose(s: string, a: int, b: int, preferSharp: bool)
    requires |Split(s)| > 0
    requires forall i :: 0 <= i < |Split(s)| ==> TokenRoundTrips(Split(s)[i])
    ensures TransposeChordString(Some(s), a, preferSharp).Some?
    ensures TransposeChordString(TransposeChordString(Some(s), a, preferSharp), b, preferSharp)
         == TransposeChordString(Some(s), a + b, preferSharp)
  {
    var toks := Split(s);
    SplitYieldsWords(s);
    var mid := TransposeTokens(toks, a, preferSharp);
    var j := JoinSpace(mid);
    assert TransposeChordString(Some(s), a, preferSharp) == Some(j);
    JoinSpaceNonEmpty(mid);
    SplitJoinSpace(mid);
    assert Split(j) == mid;
    TransposeTokensCompose(toks, a, b, preferSharp);
  }

  /** Token-wise form of the composition: transposing round-tripping tokens by
      `a` and then `b` equals transposing them by `a + b`. */
  lemma TransposeTokensCompose(toks: seq<string>, a: int, b: int, preferSharp: bool)
    requires forall i :: 0 <= i < |toks| ==> TokenRoundTrips(toks[i])
    ensures TransposeTokens(TransposeTokens(toks, a, preferSharp), b, preferSharp)
         == TransposeTokens(toks, a + b, preferSharp)
  {
    var lhs := TransposeTokens(TransposeTokens(toks, a, preferSharp), b, preferSharp);
    var rhs := TransposeTokens(toks, a + b, preferSharp);
    forall i | 0 <= i < |toks|
      ensures lhs[i] == rhs[i]
    {
      TransposeTokenCompose(toks[i], a, b, preferSharp);
    }
  }

  function TransposeEntry(e: Entry, n: int, preferSharp: bool): Entry {
    Entry(e.word, e.startTime, e.endTime, TransposeChordString(e.chords, n, preferSharp))
  }

  function TransposeSection(s: Section, n: int, preferSharp: bool): Section {
    Section(s.name, s.order, s.startTime, s.endTime,
            seq(|s.entries|, i requires 0 <= i < |s.entries| => TransposeEntry(s.entries[i], n, preferSharp)))
  }

  /** Same shape: same sections in the same order with the same names, order
      indices and times, same entries with the same words and times. */
  ghost predicate SameShape(a: seq<Section>, b: seq<Section>) {
    && |a| == |b|
    && forall i :: 0 <= i < |a| ==>
      && a[i].name == b[i].name && a[i].order == b[i].order
      && a[i].startTime == b[i].startTime && a[i].endTime == b[i].endTime
      && |a[i].entries| == |b[i].entries|
      && forall j :: 0 <= j < |a[i].entries| ==>
        && a[i].entries[j].word == b[i].entries[j].word
        && a[i].entries[j].startTime == b[i].entries[j].startTime
        && a[i].entries[j].endTime == b[i].entries[j].endTime
  }

  /** `Song._apply_transpose`: with no transposition the original sections are
      returned as they are; otherwise every section and entry keeps its shape
      and only the chord text is transposed. */
  function ApplyTranspose(original: seq<Section>, n: int, preferSharp: bool): (r: seq<Section>)
    ensures n == 0 ==> r == original
    ensures SameShape(r, original)
    ensures n != 0 ==> forall i, j :: 0 <= i < |r| && 0 <= j < |r[i].entries| ==>
      r[i].entries[j].chords == TransposeChordString(original[i].entries[j].chords, n, preferSharp)
  {
    if n == 0 then original
    else seq(|original|, i requires 0 <= i < |original| => TransposeSection(original[i], n, preferSharp))
  }

  /** Every non-empty chord string in the sections round-trips token by token
      and is not whitespace only. */
  ghost predicate ChordTextRoundTrips(sections: seq<Section>) {
    forall i, j :: 0 <= i < |sections| && 0 <= j < |sections[i].entries| ==>
      var c := sections[i].entries[j].chords;
      c.Some? && c.value != "" ==>
        |Split(c.value)| > 0 && forall k :: 0 <= k < |Split(c.value)| ==> TokenRoundTrips(Split(c.value)[k])
  }

  /** Whitespace-only chord text does not compose: one transposition leaves "",
      which the next one turns into `None`, while a single transposition by the
      sum still gives "". */
  lemma BlankChordTextDoesNotCompose(a: int, b: int, preferSharp: bool)
    ensures TransposeChordString(TransposeChordString(Some(" "), a, preferSharp), b, preferSharp) == None
    ensures TransposeChordString(Some(" "), a + b, preferSharp) == Some("")
  {
    assert Split(" ") == [] by {
      assert IsSpace(" "[0]);
      assert LStrip(" ") == "";
    }
    assert TransposeTokens([], a, preferSharp) == [];
    assert TransposeTokens([], a + b, preferSharp) == [];
    assert JoinSpace([]) == "";
  }

  /** Recomputing from the originals agrees with transposing the shown sections
      again, for chord text that round-trips: a transpose of `a` then `b` shows
      the same as `a + b` directly (all three non-zero). */
  lemma ApplyTransposeCompose(original: seq<Section>, a: int, b: int, preferSharp: bool)
    requires a != 0 && b != 0 && a + b != 0
    requires ChordTextRoundTrips(original)
    ensures ApplyTranspose(ApplyTranspose(original, a, preferSharp), b, preferSharp)
         == ApplyTranspose(original, a + b, preferSharp)
  {
    var lhs := ApplyTranspose(ApplyTranspose(original, a, preferSharp), b, preferSharp);
    var rhs := ApplyTranspose(original, a + b, preferSharp);
    forall i | 0 <= i < |original|
      ensures lhs[i] == rhs[i]
    {
      forall j | 0 <= j < |original[i].entries|
        ensures lhs[i].entries[j] == rhs[i].entries[j]
      {
        var c := original[i].entries[j].chords;
        if c.Some? && c.value != "" {
          TransposeChordStringCompose(c.value, a, b, preferSharp);
        }
      }
      assert lhs[i].entries == rhs[i].entries;
    }
  }

  /** `Song.__init__`: the effective transpose is transpose + capo; a zero BPM
      override or an empty key override counts as none. */
  function NewSong(file: SongFile, transpose: int, bpmOverride: Option<int>, keyOverride: Option<string>,
                   capo: int, preferNotation: string): (r: Song)
    ensures r.transpose == transpose + capo
    ensures r.originalSections == file.sections.GetOr([])
    ensures r.sections == ApplyTranspose(r.originalSections, transpose + capo, PreferSharp(preferNotation))
    ensures r.meta == file.meta.GetOr([]) && r.preferNotation == preferNotation
    ensures bpmOverride.Some? && bpmOverride.value != 0 ==> r.bpm == JNum(bpmOverride.value as real)
    ensures !(bpmOverride.Some? && bpmOverride.value != 0) ==>
      r.bpm == if HasKey(r.meta, "bpm") then Get(r.meta, "bpm").value else JNum(120.0)
    ensures keyOverride.Some? && keyOverride.value != "" ==> r.key == JStr(keyOverride.value)
    ensures !(keyOverride.Some? && keyOverride.value != "") ==>
      r.key == if HasKey(r.meta, "key") then Get(r.meta, "key").value else JStr("C")
  {
    var meta := file.meta.GetOr([]);
    var original := file.sections.GetOr([]);
    var effective := transpose + capo;
    Song(meta, original, preferNotation, effective,
         if bpmOverride.Some? && bpmOverride.value != 0 then JNum(bpmOverride.value as real)
         else Get(meta, "bpm").GetOr(JNum(120.0)),
         if keyOverride.Some? && keyOverride.value != "" then JStr(keyOverride.value)
         else Get(meta, "key").GetOr(JStr("C")),
         ApplyTranspose(original, effective, PreferSharp(preferNotation)))
  }

  /** Capo is not a separate code path: a capo of `c` is a transpose of `c` more. */
  lemma CapoIsTranspose(file: SongFile, transpose: int, bpmOverride: Option<int>,
                        keyOverride: Option<string>, capo: int, preferNotation: string)
    ensures NewSong(file, transpose, bpmOverride, keyOverride, capo, preferNotation)
         == NewSong(file, transpose + capo, bpmOverride, keyOverride, 0, preferNotation)
  {
  }

  /** The `transpose` setter: the new value replaces the effective transpose
      (capo included) and the sections are recomputed from the originals. */
  function SetTranspose(song: Song, value: int): (r: Song)
    ensures r.transpose == value
    ensures r.sections == ApplyTranspose(song.originalSections, value, PreferSharp(song.preferNotation))
    ensures r.(transpose := song.transpose, sections := song.sections) == song
  {
    song.(transpose := value, sections := ApplyTranspose(song.originalSections, value, PreferSharp(song.preferNotation)))
  }

  /** Transposition never compounds: only the last value set matters, and
      setting 0 shows the original sections again. */
  lemma SetTransposeLastWins(song: Song, v1: int, v2: int)
    ensures SetTranspose(SetTranspose(song, v1), v2) == SetTranspose(song, v2)
    ensures SetTranspose(song, 0).sections == song.originalSections
  {
  }

  /** The `bpm` setter. */
  function SetBpm(song: Song, value: int): (r: Song)
    ensures r.bpm == JNum(value as real) && r.(bpm := song.bpm) == song
  {
    song.(bpm := JNum(value as real))
  }

  /** The `key` setter. */
  function SetKey(song: Song, value: string): (r: Song)
    ensures r.key == JStr(value) && r.(key := song.key) == song
  {
    song.(key := JStr(value))
  }

  /** Closed interval test: both ends count. */
  predicate Covers(startTime: real, endTime: real, t: real) {
    startTime <= t <= endTime
  }

  predicate SectionCovers(s: Section, t: real) {
    Covers(s.startTime, s.endTime, t)
  }

  predicate EntryCovers(e: Entry, t: real) {
    Covers(e.startTime, e.endTime, t)
  }

  /** `Song.get_section_at_time` over the given sections: the first section, in
      order, whose closed interval holds `t`; `None` if no section does. */
  function SectionAt(sections: seq<Section>, t: real): (r: Option<Section>)
    ensures r.None? <==> forall i :: 0 <= i < |sections| ==> !SectionCovers(sections[i], t)
    ensures r.Some? ==>
      exists i :: (0 <= i < |sections| && sections[i] == r.value
                   && SectionCovers(sections[i], t)
                   && forall j :: 0 <= j < i ==> !SectionCovers(sections[j], t))
  {
    if |sections| == 0 then None
    else if SectionCovers(sections[0], t) then Some(sections[0])
    else
      var r := SectionAt(sections[1..], t);
      assert forall i :: 1 <= i < |sections| ==> sections[i] == sections[1..][i - 1];
      r
  }

  /** The first entry of a section's list whose closed interval holds `t`, tagged. */
  function EntryInSection(entries: seq<Entry>, t: real, name: string): Option<TaggedEntry> {
    if |entries| == 0 then None
    else if EntryCovers(entries[0], t) then Some(TaggedEntry(entries[0], name))
    else EntryInSection(entries[1..], t, name)
  }

  /** `Song.get_entry_at_time` over the given sections: sections are scanned in
      order and, in each one that holds `t`, its entries in order; the first
      entry holding `t` wins. A section holding `t` without such an entry does
      not stop the scan. */
  function EntryAt(sections: seq<Section>, t: real): Option<TaggedEntry> {
    if |sections| == 0 then None
    else
      var here := if SectionCovers(sections[0], t) then EntryInSection(sections[0].entries, t, sections[0].name) else None;
      if here.Some? then here else EntryAt(sections[1..], t)
  }

  /** Reference definition: every (section, entry) pair whose intervals both hold
      `t`, in section-then-entry order. */
  function CoveringEntries(entries: seq<Entry>, t: real, name: string): seq<TaggedEntry> {
    if |entries| == 0 then []
    else (if EntryCovers(entries[0], t) then [TaggedEntry(entries[0], name)] else [])
         + CoveringEntries(entries[1..], t, name)
  }

  function Candidates(sections: seq<Section>, t: real): (r: seq<TaggedEntry>)
  {
    if |sections| == 0 then []
    else (if SectionCovers(sections[0], t) then CoveringEntries(sections[0].entries, t, sections[0].name) else [])
         + Candidates(sections[1..], t)
  }

  lemma {:induction false} EntryInSectionFirst(entries: seq<Entry>, t: real, name: string)
    ensures EntryInSection(entries, t, name)
         == if |CoveringEntries(entries, t, name)| == 0 then None else Some(CoveringEntries(entries, t, name)[0])
  {
    if |entries| > 0 && !EntryCovers(entries[0], t) {
      EntryInSectionFirst(entries[1..], t, name);
    }
  }

  /** The entry lookup is first-match-wins over all candidates: it returns the
      first (section, entry) pair, in order, whose closed intervals both hold `t`,
      and `None` exactly when there is none. */
  lemma {:induction false} EntryAtIsFirstCandidate(sections: seq<Section>, t: real)
    ensures EntryAt(sections, t)
         == if |Candidates(sections, t)| == 0 then None else Some(Candidates(sections, t)[0])
  {
    if |sections| > 0 {
      var s := sections[0];
      EntryInSectionFirst(s.entries, t, s.name);
      EntryAtIsFirstCandidate(sections[1..], t);
    }
  }

  lemma {:induction false} CoveringEntriesSpec(entries: seq<Entry>, t: real, name: string)
    ensures forall k :: 0 <= k < |CoveringEntries(entries, t, name)| ==>
      CoveringEntries(entries, t, name)[k].section == name
      && CoveringEntries(entries, t, name)[k].entry in entries
      && EntryCovers(CoveringEntries(entries, t, name)[k].entry, t)
  {
    if |entries| > 0 {
      CoveringEntriesSpec(entries[1..], t, name);
    }
  }

  /** A found entry lies in a section that holds `t` (though, when sections share
      a boundary, not necessarily in the section `SectionAt` returns), carries
      that section's name, and holds `t` itself. */
  lemma {:induction false} EntryAtSound(sections: seq<Section>, t: real)
    requires EntryAt(sections, t).Some?
    ensures exists i :: (0 <= i < |sections| && SectionCovers(sections[i], t)
                         && sections[i].name == EntryAt(sections, t).value.section
                         && EntryAt(sections, t).value.entry in sections[i].entries)
    ensures EntryCovers(EntryAt(sections, t).value.entry, t)
    ensures SectionAt(sections, t).Some?
  {
    var s := sections[0];
    if SectionCovers(s, t) && EntryInSection(s.entries, t, s.name).Some? {
      EntryInSectionFirst(s.entries, t, s.name);
      CoveringEntriesSpec(s.entries, t, s.name);
      assert SectionCovers(sections[0], t);
    } else {
      EntryAtSound(sections[1..], t);
      var i :| 0 <= i < |sections[1..]| && SectionCovers(sections[1..][i], t)
        && sections[1..][i].name == EntryAt(sections, t).value.section
        && EntryAt(sections, t).value.entry in sections[1..][i].entries;
      assert sections[i + 1] == sections[1..][i];
    }
  }

  /** At a boundary shared by two consecutive entries the earlier one wins. */
  lemma SharedBoundaryEarlierWins(s: Section, e1: Entry, e2: Entry, t: real)
    requires s.entries == [e1, e2] && SectionCovers(s, t)
    requires e1.endTime == t && e2.startTime == t && e1.startTime <= t
    ensures EntryAt([s], t) == Some(TaggedEntry(e1, s.name))
  {
  }

  /** The shape of `Song.to_dict`. */
  datatype SongDict = SongDict(meta: JsonObject, sections: seq<Section>)

  /** `Song.to_dict`: the file's meta with the effective BPM, key, transpose and
      notation written over it; every other meta field is passed through. */
  function ToDict(song: Song): (r: SongDict)
    ensures Get(r.meta, "bpm") == Some(song.bpm)
    ensures Get(r.meta, "key") == Some(song.key)
    ensures Get(r.meta, "transpose") == Some(JNum(song.transpose as real))
    ensures Get(r.meta, "prefer_notation") == Some(JStr(song.preferNotation))
    ensures forall k :: k !in {"bpm", "key", "transpose", "prefer_notation"} ==> Get(r.meta, k) == Get(song.meta, k)
    ensures r.sections == song.sections
  {
    var m1 := Put(song.meta, "bpm", song.bpm);
    var m2 := Put(m1, "key", song.key);
    var m3 := Put(m2, "transpose", JNum(song.transpose as real));
    SongDict(Put(m3, "prefer_notation", JStr(song.preferNotation)), song.sections)
  }
}
