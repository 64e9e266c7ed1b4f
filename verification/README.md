# MuLyCue core in Dafny

A model of the logic at the heart of MuLyCue, a live lyrics-and-chords display. The Python backend is modelled here as pure functions over immutable datatypes:

- **Chords** (`chord.dfy`, `transpose.dfy`) covers:
  - the twelve pitch classes with their sharp and flat spellings;
  - the case-insensitive note parser;
  - the chord parser driven by the pattern `^([A-G][#b]?)([^/]*?)(?:/([A-G][#b]?))?$`, hand-coded here;
  - transposition modulo 12, rendering, and the key-distance function.
- **Songs** (`song.dfy`) covers:
  - the effective transpose (transpose + capo);
  - token-by-token transposition of chord text, always recomputed from the original sections;
  - BPM and key overrides;
  - the closed-interval, first-match lookups of the section and entry sounding at a time;
  - `to_dict`.
- **Sync engine** (`sync_engine.dfy`) covers:
  - a state record fed the playback position;
  - the events (callbacks) an update makes, as a list;
  - the 4/4 beat counter;
  - the upcoming-entries window.
- **Song-file check** (`mlc_format.dfy`) covers the ordered structural check of a parsed `.mlc` JSON value, which reports the first missing key, and the empty-file template.
- **Setlists** (`setlist.dfy`) covers:
  - the settings bound;
  - total running time with gaps and its human-readable estimate;
  - move, remove, add, get, clear and duplicate.
- **Queue** (`queue.dfy`) covers the state part of setlist playback:
  - the cursor and the shuffle indirection;
  - next, previous, jump and stop, with loop wrap-around;
  - the progress report.

Supporting modules:

- `wrappers.dfy` holds `Option` and `Fallible`. `Fallible` is a value or a Python `IndexError`.
- `text.dfy` holds the Python `str` operations the code uses: `strip`, `upper`, whitespace `split`, `" ".join` and `str(int)`.
- `json.dfy` holds a JSON value plus Python's `in`, iteration and subscripting on it.

Python semantics are spelled out where they matter:

- `int()` truncates toward zero, and float `%` takes the sign of the divisor.
- `list.insert` clamps its index and counts a negative one from the end.
- List indexing accepts negative indices.
- `in` means different things on a dict, a list and a string.
- A `bool` BPM divides as 0 or 1.

Times and durations are exact `real`s.

Where the code and its design notes disagree, the model follows the code:

- Section and entry lookups use closed intervals `start <= t <= end` and take the first match. They do not use half-open intervals or a search.
- The beat is a counter. It advances at most once per update, and only when a beat's duration has passed since the last beat; it is not derived from the position.
- The sync engine holds one listener per event kind, not a registry of subscribers.
- A transpose change recomputes the sections of the song and reports nothing by itself. The engine holds that same song, so its next update at the position sees the new chord text and reports the entry again.

## Model

Functions that only compute (`ParseChord`, `NoteFromString`, `EntryAt`, `TotalDuration`, `EstimatedTime`, `ScanUpcoming`, `BpmValue` and the like) have no row of their own: the rows of the lemmas and members about them say what they mean.

| member | source | states |
|---|---|---|
| Chords.ChordRoot.Value | src/backend/models/chord.py:11-24 | each pitch class has its semitone value, in 0..11 |
| Chords.ChordRoot.SharpName | src/backend/models/chord.py:26-29 | the sharp spelling is a letter A–G, followed by `#` exactly for the five accidentals |
| Chords.ChordRoot.FlatName | src/backend/models/chord.py:31-38 | the flat spelling ends in `b` exactly for the five accidentals; a natural note is spelled as its sharp name |
| Chords.RootOf | src/backend/models/chord.py:113 | `ChordRoot(v)` is the pitch class whose value is `v` |
| Chords.LookupNoteSpec | src/backend/models/chord.py:55-70 | the note table maps a key to `r` exactly when the key is the upper-cased sharp or flat name of `r` (17 spellings) |
| Chords.NoteFromStringSpec | src/backend/models/chord.py:52-70 | the note parser accepts exactly the sharp and flat names of a pitch class, in any case and with surrounding whitespace; `Cb` and `E#` are refused |
| Chords.NoteFromNames | src/backend/models/chord.py:26-70 | parsing either spelling of a pitch class gives that pitch class back |
| Chords.Shift | src/backend/models/chord.py:112-113 | moving a pitch class by `n` gives value `(v + n) mod 12`, with negative `n` wrapping below C |
| Chords.Transpose | src/backend/models/chord.py:101-120 | the root moves by `n` mod 12; the bass is present exactly when it was and moves the same way; the suffix is untouched |
| Chords.TransposeOctaves | src/backend/models/chord.py:112-120 | transposing by any multiple of 12, up or down, gives the chord back |
| Chords.TransposeCompose | src/backend/models/chord.py:112-120 | transposing by `a` then `b` equals transposing by `a + b`; 0 is the identity; `n` then `-n` restores the chord |
| Chords.MatchChordPattern | src/backend/models/chord.py:167-173 | every match the hand-coded matcher reports fits the pattern: a note token, a `/`-free suffix, an optional note token after `/`, a greedy accidental, and the text is their concatenation |
| Chords.MatchChordPatternComplete | src/backend/models/chord.py:169-175 | the matcher finds every fit of the pattern, so it agrees with the pattern on all inputs |
| Chords.Decode | src/backend/models/chord.py:175-189 | the groups decode exactly when the root group, and the bass group if it matched, name a pitch class; the chord's root and bass are those notes, its suffix is the suffix group, and it has a bass exactly when the bass group matched |
| Chords.DecodeRefusesUnmapped | src/backend/models/chord.py:175-189 | a root or bass group spelled `Cb`, `Fb`, `E#` or `B#`, which the note table lacks, makes the chord undecodable |
| Chords.UnmappedNames | src/backend/models/chord.py:52-70 | `Cb`, `Fb`, `E#` and `B#` name no pitch class |
| Chords.ParseChordMeaning | src/backend/models/chord.py:162-189 | the parser reads chord `c` exactly when the trimmed text fits the pattern with groups that decode to `c` |
| Chords.ParsedIsWellFormed | src/backend/models/chord.py:162-189 | a parsed suffix has no `/`; without a bass it has no trailing whitespace; it has no whitespace if the input had none; the chord is well-formed iff the suffix does not start with `#`/`b` |
| Chords.RenderThenParse | src/backend/models/chord.py:122-189 | rendering a well-formed chord with either spelling and parsing the text gives the chord back |
| Chords.RenderedHasNoSpace | src/backend/models/chord.py:132-141 | a rendered chord is non-empty and has no whitespace when its suffix has none |
| TransposeUtil.TransposeChord | src/backend/utils/transpose.py:9-26 | `None` exactly when the text does not parse; for a well-formed chord the result parses back to the transposed chord |
| TransposeUtil.TransposeKey | src/backend/utils/transpose.py:29-43 | `None` exactly when the key does not parse; otherwise the mode is kept and the tonic moves by `n` |
| TransposeUtil.TransposeChordCompose | src/backend/utils/transpose.py:21-26 | transposing the text by `a` then `b` equals transposing by `a + b`; `n` then `-n` equals transposing by 0 |
| TransposeUtil.RenderThenParseNeedsWellFormed | src/backend/models/chord.py:169 | D with suffix `bm` renders as `Dbm`, which reads back as D-flat minor, so the round trip needs well-formedness |
| TransposeUtil.Interval | src/backend/utils/transpose.py:63-72 | the interval lies in -6..6, is congruent to the value difference mod 12, and moves the first root onto the second; a difference already within -6..6, a tritone of +6 or -6 included, is kept as it is |
| TransposeUtil.SemitonesBetweenKeys | src/backend/utils/transpose.py:46-72 | `None` exactly when either key fails to parse; otherwise the interval between the two roots |
| TransposeUtil.IntervalAntisymmetric | src/backend/utils/transpose.py:66-70 | the interval from `t` to `f` is minus the interval from `f` to `t`, the tritone included |
| TransposeUtil.TransposeChordValue | src/backend/utils/transpose.py:21-26 | the sharp or the flat spelling of a well-formed chord transposes to the rendering of the transposed chord |
| TransposeUtil.TransposeExampleUp | tests/test_transpose.py:13-16 | C up 2 is D |
| TransposeUtil.TransposeExampleMinor | tests/test_transpose.py:18-19 | Am up 3 is Cm |
| TransposeUtil.TransposeExampleG | tests/test_transpose.py:22-25 | G down 2 is F |
| TransposeUtil.TransposeExampleDown | tests/test_transpose.py:27-28 | Em7 down 5 is Bm7 |
| TransposeUtil.TransposeExampleSharp | tests/test_transpose.py:31-34 | C up 1 is C# with sharps |
| TransposeUtil.TransposeExampleFlat | tests/test_transpose.py:37-40 | C up 1 is Db with flats |
| TransposeUtil.TransposeExampleFlatInput | tests/test_chord.py:143 | flat-spelled input is read: Db7/Ab up 2 is D#7/A# with sharps |
| TransposeUtil.TransposeExampleSlash | src/backend/models/chord.py:115-120 | C/G up 2 is D/A: the bass moves with the root |
| TransposeUtil.TransposeKeyExample | tests/test_transpose.py:48-49 | the key Am up 5 is Dm |
| TransposeUtil.TransposeRejectsNonLetter | tests/test_transpose.py:65-68 | text whose first non-blank character is not A–G has no transposition |
| TransposeUtil.SemitonesExample | tests/test_transpose.py:57-59 | C to G is -5, the shorter way |
| TransposeUtil.SemitonesExampleSmall | tests/test_transpose.py:54-62 | C to D is 2 and C to C is 0 |
| Text.SplitJoinSpace | src/backend/models/song.py:96-109 | splitting words that were joined with single spaces gives the words back |
| Songs.TransposeToken | src/backend/models/song.py:99-107 | a token that parses as a well-formed chord becomes text that parses as that chord transposed by `n`; a token that does not parse is kept verbatim; a non-empty token without whitespace stays so |
| Songs.TransposeTokenIsUtility | src/backend/models/song.py:99-104 | a token that parses is transposed to exactly what the chord utility gives for it, in the same spelling; a token that does not parse is one the utility refuses |
| Songs.TransposeTokenValue | src/backend/models/song.py:103-104 | either spelling of a well-formed chord becomes the transposed chord rendered in the song's spelling: sharps when sharps are preferred, flats otherwise |
| Songs.TransposeTokenExampleFlat | src/backend/models/song.py:35 | with flats preferred, C up a semitone is shown as Db |
| Songs.TransposeTokenExampleFlatG | src/backend/models/song.py:35 | with flats preferred, G up a semitone is shown as Ab |
| Songs.TransposeTokens | src/backend/models/song.py:96-108 | one output token per input token, each being that token transposed or kept; words stay words |
| Songs.TransposeChordString | src/backend/models/song.py:83-109 | `None` and "" give `None`; otherwise the result splits back into exactly the transposed input tokens, and it is single-spaced: joining its own tokens with one space gives it back |
| Songs.TransposeTokenCompose | src/backend/models/song.py:99-104 | for a token that round-trips, transposing by `a` then `b` equals transposing by `a + b` |
| Songs.TransposeTokensCompose | src/backend/models/song.py:99-108 | the same composition, token by token, over a token list |
| Songs.TransposeChordStringCompose | src/backend/models/song.py:83-109 | chord text whose tokens round-trip: by `a` then `b` equals by `a + b` |
| Songs.BlankChordTextDoesNotCompose | src/backend/models/song.py:92-109 | whitespace-only chord text becomes "" after one transposition and `None` after a second, while one transposition by the sum gives "" |
| Songs.ApplyTranspose | src/backend/models/song.py:49-81 | with 0 the original sections; otherwise the same sections and entries (names, orders, times, words), with only the chord text transposed |
| Songs.ApplyTransposeCompose | src/backend/models/song.py:56-81 | transposing the shown sections again by `b` equals computing `a + b` from the originals, for round-tripping chord text that is not whitespace only |
| Songs.NewSong | src/backend/models/song.py:37-47 | the meta is the file's (empty when absent) and the notation is kept; the effective transpose is transpose + capo; sections are computed from the originals; a non-zero BPM or non-empty key override wins, else the file's value, else 120 or "C" |
| Songs.CapoIsTranspose | src/backend/models/song.py:42 | a capo of `c` gives the same song as `c` more semitones of transpose |
| Songs.SetTranspose | src/backend/models/song.py:116-125 | the value replaces the effective transpose; the sections are recomputed from the originals; nothing else changes |
| Songs.SetTransposeLastWins | src/backend/models/song.py:116-125 | setting `v1` then `v2` equals setting `v2`; setting 0 shows the original sections |
| Songs.SetBpm | src/backend/models/song.py:132-140 | the BPM becomes the value; nothing else changes |
| Songs.SetKey | src/backend/models/song.py:147-155 | the key becomes the value; nothing else changes |
| Songs.SectionAt | src/backend/models/song.py:197-210 | `None` iff no section's closed interval holds `t`; otherwise the first such section in order |
| Songs.EntryInSectionFirst | src/backend/models/song.py:189-194 | the scan of one section's entries returns the first covering entry, matching the reference list |
| Songs.EntryAtIsFirstCandidate | src/backend/models/song.py:177-195 | the entry lookup returns the first (section, entry) pair whose closed intervals both hold `t`, `None` iff there is none |
| Songs.CoveringEntriesSpec | src/backend/models/song.py:188-194 | every reference candidate is an entry of the section, tagged with its name, covering `t` |
| Songs.EntryAtSound | src/backend/models/song.py:187-195 | a found entry holds `t` and belongs to a covering section whose name it carries; the section lookup is then not `None` |
| Songs.SharedBoundaryEarlierWins | src/backend/models/song.py:189-190 | at a boundary shared by two consecutive entries the earlier one is returned |
| Songs.ToDict | src/backend/models/song.py:212-228 | the meta reports the effective BPM, key, transpose and notation over the file's values; other meta keys pass through; sections are the shown ones |
| Sync.NewEngine | src/backend/core/sync_engine.py:24-34 | the given song, position 0, no entry, no section, beat 1 shown, last-beat time 0, no listeners |
| Sync.SetSong | src/backend/core/sync_engine.py:17-24 | the engine keeps the caller's song object, so a change to it replaces the song the engine reads and nothing else; validity is kept |
| Sync.TransposeSeenByNextUpdate | src/backend/core/sync_engine.py:36-51 | after a transpose of the shared song changes the chord text of the entry at the position, the next update there reports that entry, first, with its new text and stores it |
| Sync.BeatDuration | src/backend/core/sync_engine.py:70 | defined exactly for a numeric non-zero BPM, and then duration × BPM = 60 |
| Sync.UpdateBeat | src/backend/core/sync_engine.py:63-81 | once a beat's duration has passed, the counter advances by one mod 4, the time is recorded, and one beat is reported to a listener; otherwise nothing changes; a non-numeric or zero BPM raises |
| Sync.Update | src/backend/core/sync_engine.py:36-61 | stores the position and the looked-up entry and section; an entry or section event exists iff a listener is set and the new value is non-`None` and different; an entry event comes first and a section event comes right after it (or first), so each is reported at most once; at most 3 events |
| Sync.EventsLayout | src/backend/core/sync_engine.py:44-81 | in the events of one update, the entry event can only be first and the section event only right after the entry events, each carrying its value, and there are at most 3 |
| Sync.UpdateBeatStep | src/backend/core/sync_engine.py:36-81 | within `update`, the beat step raises iff the BPM is not a non-zero number; once a beat's duration has passed the counter advances by one mod 4 and the last-beat time becomes the position, else both stay; a beat event is reported, last and at most once, iff the beat advanced and a listener is set, and it carries the beat shown |
| Sync.UpdateIdempotent | src/backend/core/sync_engine.py:44-81 | with a positive BPM a second update at the same position changes nothing and reports nothing |
| Sync.NegativeBpmBeatsEveryUpdate | src/backend/core/sync_engine.py:70-78 | with a negative BPM every update not before the last beat advances the beat, even at the same position |
| Sync.BarWrapsAfterFourBeats | src/backend/core/sync_engine.py:76-78 | four beat steps bring the counter back to where it was |
| Sync.SetOnEntryChange | src/backend/core/sync_engine.py:83-90 | registers or clears the entry listener only |
| Sync.SetOnSectionChange | src/backend/core/sync_engine.py:92-99 | registers or clears the section listener only |
| Sync.SetOnBeat | src/backend/core/sync_engine.py:101-108 | registers or clears the beat listener only |
| Sync.GetCurrentBeat | src/backend/core/sync_engine.py:118-120 | the beat shown is in 1..4 |
| Sync.BeatEventMatchesDisplay | src/backend/core/sync_engine.py:78-81 | a reported beat number equals the beat the engine shows afterwards |
| Sync.Reset | src/backend/core/sync_engine.py:151-157 | the state of a new engine on the same song, listeners kept |
| Sync.EntriesStartingIn | src/backend/core/sync_engine.py:142-147 | exactly the section's entries starting within the window, tagged with its name |
| Sync.GetUpcomingEntries | src/backend/core/sync_engine.py:122-149 | every result starts within `[position, position + lookahead]`; for time-ordered sections the result is every entry starting in that window, in order |
| Sync.UpcomingComplete | src/backend/core/sync_engine.py:132-149 | for time-ordered sections the early stop and skip lose nothing: the result is every entry starting in the window, in order |
| Sync.UpcomingSound | src/backend/core/sync_engine.py:132-149 | every upcoming entry starts in the window and belongs to a section whose name it carries |
| MlcFormat.MessageNamesSubject | src/backend/models/mlc_format.py:31-68 | every error message contains the key it is about, or "list" for non-list sections |
| MlcFormat.FirstMissing | src/backend/models/mlc_format.py:40-43 | `None` (a raise) iff `in` raises on the first field; all-present iff `in` finds every field; otherwise the first field `in` does not find, every earlier one being found |
| MlcFormat.CheckEntries | src/backend/models/mlc_format.py:64-68 | a reported entry problem names the first entry from index `j` on that lacks a key, and the first key it lacks; every entry before it from `j` on has both |
| MlcFormat.CheckEntriesRaises | src/backend/models/mlc_format.py:64-68 | the entry check raises exactly when `in` raises on some entry from `j` on and every entry before that one has both keys |
| MlcFormat.CheckSection | src/backend/models/mlc_format.py:53-68 | a section lacking a required field is always reported with the first field it lacks; an entry problem is reported only when all four fields are present and the entries can be iterated; the check raises exactly when `in` raises on the section, or its entries cannot be subscripted or iterated, or the entry check raises |
| MlcFormat.CheckSections | src/backend/models/mlc_format.py:52-68 | a reported problem names an existing section and, for a missing section field, that section lacks it |
| MlcFormat.CheckEntriesValid | src/backend/models/mlc_format.py:64-68 | the entry check passes iff every entry from index `j` on has start_time and end_time |
| MlcFormat.CheckSectionValid | src/backend/models/mlc_format.py:53-68 | the section check passes iff the section has its four keys and iterable entries that all pass |
| MlcFormat.CheckSectionsFirst | src/backend/models/mlc_format.py:52-68 | the problem reported is the own problem of the first section that has one, and all sections before it pass |
| MlcFormat.CheckSectionsValid | src/backend/models/mlc_format.py:52-68 | the sections check passes iff every section passes |
| MlcFormat.ValidateAcceptsWellFormed | src/backend/models/mlc_format.py:31-70 | the check accepts exactly the files with every required key at every level and a list of sections |
| MlcFormat.Validate | src/backend/models/mlc_format.py:31-68 | a missing version is reported exactly when the version is absent, whatever else is missing; a missing meta exactly when the version is present and meta is absent; with both present, a meta lacking a field is always reported with the first of title, bpm, key, duration it lacks, and only such a field is reported; missing sections, and sections not a list, exactly when everything before is present; section and entry problems only when all of that holds, as the section check reports them; the check raises exactly when `in` raises on meta, or everything before the sections passes and the sections check raises |
| MlcFormat.ValidateMlcData | src/backend/models/mlc_format.py:20-70 | `None` where the check raises; otherwise the flag is set exactly for a well-formed file, and the message is present exactly when the flag is clear, is the first problem's message and names it |
| MlcFormat.CreateEmptyMlc | src/backend/models/mlc_format.py:199-217 | the version is 1.0.0, meta is the template filled with the given title, artist, BPM, key and time signature, and sections is an empty list |
| MlcFormat.DefaultEmptyMeta | src/backend/models/mlc_format.py:178-184 | called with the default arguments, the empty file is titled Untitled by Unknown, at 120 BPM in C and 4/4 |
| MlcFormat.EmptyMetaNames | src/backend/models/mlc_format.py:202-203 | the empty file carries the given title and artist |
| MlcFormat.EmptyMetaMusic | src/backend/models/mlc_format.py:207-208 | the empty file carries the given BPM and key |
| MlcFormat.EmptyMetaTimeSignature | src/backend/models/mlc_format.py:209 | the empty file carries the given time signature |
| MlcFormat.MissingBpmReported | tests/test_mlc_format.py:55-67 | a meta with a title but no bpm fails with the message "Missing required meta field: bpm" |
| MlcFormat.SectionStartTimeReported | tests/test_mlc_format.py:81-93 | a first section with a name but no start_time fails with the message "Section 0 missing 'start_time'" |
| MlcFormat.ValidateReachesSections | src/backend/models/mlc_format.py:31-52 | when the version, meta, its four fields and a list of sections are present, the check's outcome is the sections check's |
| MlcFormat.EmptyMlcIsValid | src/backend/models/mlc_format.py:179-217 | every empty file passes the check, whatever the arguments |
| Setlists.NewSettings | src/backend/models/setlist.py:23-29 | settings exist iff the gap lies in 0..60 |
| Setlists.DefaultSettings | src/backend/models/setlist.py:25-29 | the defaults pass the settings validation |
| Setlists.NewSetlist | src/backend/models/setlist.py:32-41 | a new setlist is empty, unmodified, with default settings and version 1.0.0 |
| Setlists.TotalDurationAppend | src/backend/models/setlist.py:43-56 | appending a song adds its duration, plus one gap unless the list was empty |
| Setlists.TotalDurationExample | src/backend/models/setlist.py:51-56 | 180 + 240 + 200 seconds with 5-second gaps run 630 seconds |
| Setlists.Trunc | src/backend/models/setlist.py:67-68 | `int(x)` truncates toward zero |
| Setlists.Mod60 | src/backend/models/setlist.py:68 | float `x % 60` lies in [0, 60) and differs from `x` by a multiple of 60 |
| Setlists.EstimateMeaning | src/backend/models/setlist.py:58-77 | hours and minutes appear only above 60 whole minutes, otherwise minutes and seconds, or whole minutes when the seconds are 0; each form is the time truncated to the precision shown |
| Setlists.OneHourEstimate | tests/test_setlist.py:147-157 | a setlist of one 3600-second song is estimated as the text "60 minutes" |
| Setlists.RemoveAt | src/backend/models/setlist.py:109 | `pop(i)` leaves the others in order, shifted down after `i` |
| Setlists.InsertAt | src/backend/models/setlist.py:123 | `insert(i, x)` puts `x` at `i` and shifts the rest up |
| Setlists.InsertRemoveInverse | src/backend/models/setlist.py:93-94 | removing what was inserted restores the list |
| Setlists.RemoveInsertInverse | src/backend/models/setlist.py:93-94 | reinserting a removed element where it was restores the list |
| Setlists.PyInsertIndex | src/backend/models/setlist.py:123 | `list.insert` counts a negative index from the end and clamps into 0..n |
| Setlists.MoveSong | src/backend/models/setlist.py:84-95 | with both indices in range, the moved song lands at `to`, the others keep their relative order, the multiset is kept, and the setlist is marked modified; otherwise nothing changes |
| Setlists.MoveSongInverse | src/backend/models/setlist.py:92-94 | moving a song back restores the order |
| Setlists.MoveSongKeepsTotalDuration | src/backend/models/setlist.py:84-95 | reordering keeps the running time |
| Setlists.MoveSongExample | src/backend/models/setlist.py:92-94 | moving the first of three songs to index 2 gives b, c, a |
| Setlists.RemoveSong | src/backend/models/setlist.py:97-110 | returns a song iff the index is in range, namely `songs[i]`, and the rest stay in order; otherwise the setlist is unchanged |
| Setlists.AddSong | src/backend/models/setlist.py:112-124 | appends without an index; otherwise inserts where `list.insert` does; the list grows by one |
| Setlists.RemoveThenAddRestores | src/backend/models/setlist.py:97-124 | adding a removed song back at its index restores the list |
| Setlists.GetSong | src/backend/models/setlist.py:126-138 | `songs[i]` iff `0 <= i < len`, negative indices refused |
| Setlists.SongCount | src/backend/models/setlist.py:79-82 | the number of songs |
| Setlists.Clear | src/backend/models/setlist.py:140-143 | no songs and zero running time; everything else kept |
| Setlists.Duplicate | src/backend/models/setlist.py:145-161 | new name and creation time, unmodified; same description, settings, songs and tags, hence the same running time |
| Queue.NewQueue | src/backend/core/queue_manager.py:20-34 | nothing loaded, index 0, not playing |
| Queue.LoadSetlist | src/backend/core/queue_manager.py:36-54 | index 0, not playing; the given permutation becomes the play order iff shuffle is on |
| Queue.PyIndex | src/backend/core/queue_manager.py:67 | Python indexing: negative indices from the end; out of range raises |
| Queue.GetActualIndex | src/backend/core/queue_manager.py:56-68 | the identity without shuffle, `shuffle_order[i]` with it, and a valid song index for a valid queue |
| Queue.GetCurrentSong | src/backend/core/queue_manager.py:70-81 | a song iff a setlist is loaded and the index is below its length, namely the song at that play position |
| Queue.GetNextSong | src/backend/core/queue_manager.py:83-102 | the next position's song; past the end the first position's song when looping, else none; a looping empty setlist raises |
| Queue.GetPreviousSong | src/backend/core/queue_manager.py:104-116 | none at index 0; the song one position back; raises once the cursor is more than one past the end |
| Queue.PlayCurrent | src/backend/core/queue_manager.py:118-134 | with a current song, playing starts and auto-advance is scheduled if enabled; otherwise nothing changes |
| Queue.NextSong | src/backend/core/queue_manager.py:177-205 | the index moves forward by one; past the end it wraps to 0 when looping, else playing stops with the cursor past the end and no auto-advance pending; when a song starts playing, auto-advance is pending exactly when the settings enable it |
| Queue.PreviousSong | src/backend/core/queue_manager.py:207-217 | nothing at index 0; otherwise the index goes back by one; from inside the setlist playing starts and auto-advance is pending exactly when the settings enable it; from beyond the end nothing plays and nothing is pending |
| Queue.JumpToSong | src/backend/core/queue_manager.py:219-234 | an out-of-range index is ignored; otherwise the index is set exactly, playing starts, and auto-advance is pending exactly when the settings enable it |
| Queue.Stop | src/backend/core/queue_manager.py:236-242 | not playing and no auto-advance; cursor and setlist kept |
| Queue.NextSongPlaysAnnouncedSong | src/backend/core/queue_manager.py:83-102 | the song the next-song lookup announces is the one `next_song` makes current |
| Queue.PreviousSongPlaysAnnouncedSong | src/backend/core/queue_manager.py:104-116 | the song the previous-song lookup announces is the one `previous_song` makes current |
| Queue.PreviousNextInverse | src/backend/core/queue_manager.py:188-216 | inside the setlist, previous and next undo each other |
| Queue.NextSongRunsPastEnd | src/backend/core/queue_manager.py:188-202 | without looping, next past the end moves the cursor further past and the previous-song lookup then raises |
| Queue.PermutationIsOnto | src/backend/core/queue_manager.py:48-50 | a shuffled order reaches every song index |
| Queue.PassPlaysEverySongOnce | src/backend/core/queue_manager.py:56-68 | one pass through the play positions reaches every song, none twice, shuffled or not |
| Queue.GetProgress | src/backend/core/queue_manager.py:244-273 | all zero without a setlist; otherwise it reports the cursor, the song count, the total running time, remaining = len - index - 1, and the percentage ⌊100 · index / len⌋ (0 for an empty setlist); the elapsed time is pinned by `ElapsedIsStartTime` and `ElapsedPastEnd` |
| Queue.ProgressBounds | src/backend/core/queue_manager.py:269-272 | inside the setlist the percentage lies in 0..99 and the remaining count is not negative |
| Queue.ProgressPastEnd | src/backend/core/queue_manager.py:269-272 | past the end the percentage is at least 100 and the remaining count is below -1 |
| Queue.ElapsedIsStartTime | src/backend/core/queue_manager.py:262-264 | the elapsed time is the running time of the songs passed, plus one gap after them |
| Queue.ElapsedPastEnd | src/backend/core/queue_manager.py:262-271 | at or past the end, elapsed = every song's duration + one gap per position passed; for a non-empty setlist that is the total running time plus one gap per step past the last song |
| Queue.ElapsedAtEnd | src/backend/core/queue_manager.py:262-271 | one past the last song, elapsed = total running time + one gap |

## Left out

- Chords.ToString: carries no contract of its own. What it means is stated by `RenderThenParse` and `RenderedHasNoSpace`.
- Text.Upper: maps ASCII letters only, whereas Python's `str.upper` covers all of Unicode. Every spelling the note table accepts is ASCII.
- Text.IsSpace: is Python's `isspace` over ASCII, the separators U+001C..U+001F and the Unicode space characters. Other exotic code points are not modelled.
- Songs.TransposeChordString: keeps the token count and each token's transposition, but with a non-zero transpose the text is re-spelled (for example `Db` becomes `C#` when sharps are preferred). Round trips therefore need well-formed chords. This is why a transpose of 0 is special-cased.
- Songs.ApplyTransposeCompose: holds only for non-zero `a`, `b` and `a + b`, and only for chord text whose tokens round-trip. With 0, the original text is shown verbatim, not re-spelled.
- Songs.ApplyTransposeCompose: also excludes whitespace-only chord text, which really does not compose: it becomes "" and then `None` (`BlankChordTextDoesNotCompose`).
- Songs.NewSong:
  - takes the sections as `Section` values. Decoding the JSON of the sections (`section["name"]` and so on) is not modelled.
  - `meta: null` in a file (where the source would raise) is not modelled.
- Songs.SetTranspose: the setter replaces the effective transpose, so a capo given at construction is dropped. This is modelled as written.
- Sync.UpdateIdempotent: needs a positive BPM. With a negative BPM every update fires a beat (`NegativeBpmBeatsEveryUpdate`).
- Songs.EntryAtSound: when sections share a boundary, the entry can come from a later section than the one the section lookup returns. This is modelled as written.
- Queue.GetProgress: the percentage is `int(index / len * 100)` on exact reals. Float rounding (e.g. 29/100*100 giving 28) is not modelled.
- Queue.ElapsedIsStartTime: elapsed time counts songs in list order, not play order, even when shuffled. This is modelled as written.
- Queue.ProgressPastEnd: states `>= 100`, not `> 100`. With more than 100 songs, a cursor two past the end still truncates to exactly 100.
- Queue.LoadSetlist:
  - takes the shuffled permutation as a parameter instead of calling `random.shuffle`;
  - the broadcast it schedules is left out;
  - the source shares the setlist object, so later edits to it could break the shuffle order. The model keeps the loaded setlist immutable.
- Setlists.NewSettings: the 0..60 gap bound is checked only when the settings are built, as the field validator does. A later assignment is not checked.
- Timestamps: `created_at` and `modified_at` come from the caller as a `now` parameter instead of `datetime.now()`.
- Song getters: `title`, `artist`, `duration` and `audio_file` are plain `meta.get` lookups with defaults and are not modelled.
- MlcFormat.CreateEmptyMlc: Python's default arguments have no counterpart. A call that omits them is the call with `DefaultTitle`, `DefaultArtist`, `DefaultBpm`, `DefaultKey` and `DefaultTimeSignature` (`DefaultEmptyMeta`).
- Sync.TransposeSeenByNextUpdate: takes as its premise that the entry at the position exists in the transposed song and that its chord text changed. That a transpose keeps every entry's times is not proved.
- Sync.GetUpcomingEntries: Python's default argument has no counterpart. A call that omits `lookahead` is the call with `DefaultLookahead` (5.0 seconds).
- Sync getters: `get_current_entry` and `get_current_section` are the `entry` and `section` fields of the engine state.
- Async, network and I/O:
  - the asyncio tasks (`_auto_advance_handler`, `_countdown_handler`) and task cancellation, of which only the "pending" flag is kept;
  - `broadcast_setlist_update` and `get_setlist_info`, which are websocket payload assembly;
  - the audio engine;
  - file loading and saving of `.mlc` files (`load_from_file*`, `save_to_file*`), apart from the check they call;
  - JSON text decoding;
  - pydantic serialisation.
- The callbacks themselves: the model records which listeners are registered and the events an update makes, not the code the callbacks run.
